/**
 * The database descriptor: one `MaxMindDatabase` object per configured
 * use, whose kind fixes its catalog (the Java subclasses `MaxMindCityData`,
 * `MaxMindCountryData`, `MaxMindIspData`, `MaxMindOrgData` and
 * `MaxMindDomainData`).
 */
module Database {
  import opened Wrappers
  import opened Objects
  import opened Responses
  import opened Fields
  import opened Selection
  import opened Projection

  class MaxMindDatabase {
    /** Which subclass this object is; it fixes the enum of `selectedFields`. */
    const kind: Kind
    var selectedFields: array<FieldRef>
    var defaultValues: Option<seq<JString>>
    var overrideFieldNames: Option<seq<JString>>

    /** Java's static typing: every non-null selected constant is of this kind's enum. */
    ghost predicate Valid()
      reads this, selectedFields
    {
      OfKind(selectedFields[..], kind)
    }

    /** A fresh descriptor: no field selected, no defaults, no overrides. */
    constructor (kind: Kind)
      ensures this.kind == kind && Valid()
      ensures fresh(selectedFields) && selectedFields.Length == 0
      ensures defaultValues.None? && overrideFieldNames.None?
    {
      this.kind := kind;
      selectedFields := new FieldRef[0];
      defaultValues := None;
      overrideFieldNames := None;
    }

    /**
     * `setSelectedFields(String[])`: replaces the selection by a fresh array
     * as long as `names` (empty for null) and fills it by `valueOf`, in order;
     * a name that raises leaves the rest of the new array null.
     */
    method SelectFields(names: Option<seq<JString>>) returns (outcome: Outcome<Error>)
      modifies this
      ensures Valid() && fresh(selectedFields)
      ensures selectedFields[..] == SelectedArray(kind, names)
      ensures outcome == SelectOutcome(kind, names)
      ensures defaultValues == old(defaultValues) && overrideFieldNames == old(overrideFieldNames)
    {
      var n := if names.None? then 0 else |names.value|;
      var fields := new FieldRef[n](_ => None);
      selectedFields := fields;
      if names.None? {
        return Pass;
      }
      outcome := FillSelection(kind, names.value, fields);
      SelectedArrayOfKind(kind, names);
    }

    /**
     * `setSelectedFields(String[], String[], String[])`: stores the overrides
     * and defaults first, then replaces the selection.
     */
    method SetSelectedFields(names: Option<seq<JString>>, overrides: Option<seq<JString>>, defaults: Option<seq<JString>>)
      returns (outcome: Outcome<Error>)
      modifies this
      ensures Valid() && fresh(selectedFields)
      ensures defaultValues == defaults && overrideFieldNames == overrides
      ensures selectedFields[..] == SelectedArray(kind, names)
      ensures outcome == SelectOutcome(kind, names)
    {
      defaultValues := defaults;
      overrideFieldNames := overrides;
      outcome := SelectFields(names);
    }

    /** `getSelectedFields()`: the stored array itself, not a copy. */
    method GetSelectedFields() returns (fields: array<FieldRef>)
      ensures fields == selectedFields
    {
      fields := selectedFields;
    }

    /** `getFieldNames()`: a new array of every catalog name, in declaration order, whatever is selected. */
    method GetFieldNames() returns (names: array<string>)
      ensures fresh(names)
      ensures names.Length == |AllFields(kind)|
      ensures forall i :: 0 <= i < names.Length ==> names[i] == Name(AllFields(kind)[i])
    {
      var fields := AllFields(kind);
      names := new string[|fields|];
      for i := 0 to |fields|
        invariant forall j :: 0 <= j < i ==> names[j] == Name(fields[j])
      {
        names[i] := Name(fields[i]);
      }
    }

    /**
     * `getFields(r, origin)`: appends one column per selected field to the
     * row metadata `r`, named by the display-name rule; an exception ends
     * the loop with the columns added so far left in `r`.
     */
    method GetFields(r: seq<Column>, origin: string) returns (r': seq<Column>, outcome: Outcome<Error>)
      ensures var p := Run(ColumnResults(selectedFields[..], overrideFieldNames, origin));
        r' == r + p.done && outcome == (if p.failure.Some? then Fail(p.failure.value) else Pass)
    {
      ghost var rs := ColumnResults(selectedFields[..], overrideFieldNames, origin);
      ghost var added: seq<Column> := [];
      r' := r;
      var i := 0;
      while i < selectedFields.Length
        invariant 0 <= i <= selectedFields.Length && |added| == i
        invariant r' == r + added
        invariant forall j :: 0 <= j < i ==> rs[j].Ok? && added[j] == rs[j].value
      {
        var c := ColumnAt(selectedFields[i], overrideFieldNames, i, origin);
        assert c == rs[i];
        if c.Err? {
          RunStopsAt(rs, i);
          assert Run(rs).done == added;
          return r', Fail(c.error);
        }
        r' := r' + [c.value];
        added := added + [c.value];
        i := i + 1;
      }
      RunStopsAt(rs, i);
      assert Run(rs).done == added;
      outcome := Pass;
    }

    /**
     * `getRowData(outputRow, firstNewFieldIndex, ip)`, with the parsing of
     * `ip` and the reader's lookup given as their outcome: writes the
     * values in order from `offset` and changes nothing else.
     */
    method GetRowData(row: array<Value>, offset: int, lookup: Lookup) returns (outcome: Outcome<Error>)
      requires Valid()
      requires lookup.Found? ==> Answers(kind, lookup.response)
      modifies row
      ensures var e := Emit(old(row[..]), offset, RowValues(kind, selectedFields[..], defaultValues, lookup));
        row[..] == e.row && outcome == e.outcome
    {
      match lookup
      case Failed(e) =>
        outcome := Fail(e);
      case NotFound =>
        if DefaultsWhenNotFound(kind) {
          outcome := WriteDefaults(row, offset);
        } else {
          outcome := WriteSlots(row, offset, None);
        }
      case Found(resp) =>
        outcome := WriteSlots(row, offset, Some(resp));
    }

    /** The per-field loop: `outputRow[firstNewFieldIndex++] = (o == null) ? defaultValues[i] : o`. */
    method WriteSlots(row: array<Value>, offset: int, resp: Option<Response>) returns (outcome: Outcome<Error>)
      requires Valid()
      requires resp.Some? ==> Answers(kind, resp.value)
      modifies row
      ensures ReadsResponse(selectedFields[..], resp)
      ensures var e := Emit(old(row[..]), offset, Run(SlotResults(selectedFields[..], resp, defaultValues)));
        row[..] == e.row && outcome == e.outcome
    {
      assert ReadsResponse(selectedFields[..], resp);
      ghost var rs := SlotResults(selectedFields[..], resp, defaultValues);
      ghost var written: seq<Value> := [];
      var i := 0;
      var index := offset;
      while i < selectedFields.Length
        invariant 0 <= i <= selectedFields.Length && index == offset + i && |written| == i
        invariant forall j :: 0 <= j < i ==> rs[j].Ok? && written[j] == rs[j].value
        invariant i > 0 ==> 0 <= offset && offset + i <= row.Length
        invariant forall j :: 0 <= j < row.Length ==>
          row[j] == if offset <= j < offset + i then written[j - offset] else old(row[j])
      {
        var v := SlotValue(selectedFields[i], resp, defaultValues, i);
        assert v == rs[i];
        if v.Err? {
          RunStopsAt(rs, i);
          assert Run(rs).done == written;
          EmitRowFrom(old(row[..]), offset, Run(rs), written, row[..]);
          return Fail(v.error);
        }
        if index < 0 || index >= row.Length {
          RunPasses(rs, i);
          assert Run(rs).done[..i] == written;
          EmitRowFrom(old(row[..]), offset, Run(rs), written, row[..]);
          return Fail(IndexOutOfBounds);
        }
        row[index] := v.value;
        written := written + [v.value];
        index := index + 1;
        i := i + 1;
      }
      RunStopsAt(rs, i);
      assert Run(rs).done == written;
      EmitRowFrom(old(row[..]), offset, Run(rs), written, row[..]);
      outcome := Pass;
    }

    /** The City/Country not-found loop: `for (String field : defaultValues) outputRow[firstNewFieldIndex++] = field`. */
    method WriteDefaults(row: array<Value>, offset: int) returns (outcome: Outcome<Error>)
      modifies row
      ensures var e := Emit(old(row[..]), offset, DefaultsRow(defaultValues));
        row[..] == e.row && outcome == e.outcome
    {
      if defaultValues.None? {
        return Fail(NullPointer);
      }
      var defaults := defaultValues.value;
      ghost var whole := DefaultsRow(defaultValues);
      var i := 0;
      var index := offset;
      while i < |defaults|
        invariant 0 <= i <= |defaults| && index == offset + i
        invariant i > 0 ==> 0 <= offset && offset + i <= row.Length
        invariant forall j :: 0 <= j < row.Length ==>
          row[j] == if offset <= j < offset + i then whole.done[j - offset] else old(row[j])
      {
        if index < 0 || index >= row.Length {
          EmitRowFrom(old(row[..]), offset, whole, whole.done[..i], row[..]);
          return Fail(IndexOutOfBounds);
        }
        row[index] := FromJString(defaults[i]);
        index := index + 1;
        i := i + 1;
      }
      EmitRowFrom(old(row[..]), offset, whole, whole.done, row[..]);
      outcome := Pass;
    }
  }

  /**
   * The loop of `setSelectedFields`: `selectedFields[i] = valueOf(fieldNames[i])`
   * for each `i` in turn, into the freshly allocated, all-null array.
   */
  method FillSelection(kind: Kind, names: seq<JString>, fields: array<FieldRef>) returns (outcome: Outcome<Error>)
    requires fields.Length == |names|
    requires forall j :: 0 <= j < fields.Length ==> fields[j] == None
    modifies fields
    ensures fields[..] == SelectedArray(kind, Some(names))
    ensures outcome == SelectOutcome(kind, Some(names))
  {
    ghost var rs := Resolutions(kind, names);
    var i := 0;
    while i < fields.Length
      invariant 0 <= i <= fields.Length
      invariant forall j :: 0 <= j < i ==> rs[j].Ok? && fields[j] == Some(rs[j].value)
      invariant forall j :: i <= j < fields.Length ==> fields[j] == None
    {
      var r := ValueOf(kind, names[i]);
      assert r == rs[i];
      if r.Err? {
        SelectionStopsAt(kind, names, fields[..], i);
        return Fail(r.error);
      }
      fields[i] := Some(r.value);
      i := i + 1;
    }
    SelectionStopsAt(kind, names, fields[..], i);
    return Pass;
  }
}
