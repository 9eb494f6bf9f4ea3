/**
 * What `getRowData` writes into the caller's row, as functions of the
 * selection, the stored defaults and the lookup outcome; and the facts the
 * engine promises about it.
 */
module Projection {
  import opened Wrappers
  import opened Objects
  import opened Responses
  import opened Fields

  /** Every non-null selected constant can read the (non-null) response. */
  predicate ReadsResponse(selected: seq<FieldRef>, resp: Option<Response>)
  {
    forall i :: 0 <= i < |selected| && selected[i].Some? && resp.Some? ==>
      Answers(KindOf(selected[i].value), resp.value)
  }

  /**
   * The value `(o == null) ? defaultValues[i] : o` assigned to slot `i`,
   * with `o = selectedFields[i].getVal(response)`: a null entry or a null
   * response raises NullPointerException, and so does an extractor that
   * unboxes a missing coordinate; a null result falls back to the default,
   * which raises when the default array is null or too short.
   */
  function SlotValue(ref: FieldRef, resp: Option<Response>, defaults: Option<seq<JString>>, i: nat): Result<Value, Error>
    requires ref.Some? && resp.Some? ==> Answers(KindOf(ref.value), resp.value)
  {
    if ref.None? || resp.None? then Err(NullPointer)
    else
      match GetVal(ref.value, resp.value)
      case Err(e) => Err(e)
      case Ok(o) =>
        if o.Some? then Ok(o.value)
        else if defaults.None? then Err(NullPointer)
        else if i >= |defaults.value| then Err(IndexOutOfBounds)
        else Ok(FromJString(defaults.value[i]))
  }

  /**
   * Slot `i` of a found result gets a value: its extractor does not raise,
   * and it either yields a value or slot `i` has a default.
   */
  predicate SlotFilled(f: Field, r: Response, defaults: Option<seq<JString>>, i: nat)
    requires Answers(KindOf(f), r)
  {
    GetVal(f, r).Ok? && (GetVal(f, r).value.Some? || (defaults.Some? && i < |defaults.value|))
  }

  /** The value such a slot gets: the extracted one, or else its default. */
  function FilledValue(f: Field, r: Response, defaults: Option<seq<JString>>, i: nat): Value
    requires Answers(KindOf(f), r) && SlotFilled(f, r, defaults, i)
  {
    var o := GetVal(f, r).value;
    if o.Some? then o.value else FromJString(defaults.value[i])
  }

  /** The value of every slot of the per-field loop, in selection order. */
  function SlotResults(selected: seq<FieldRef>, resp: Option<Response>, defaults: Option<seq<JString>>): (rs: seq<Result<Value, Error>>)
    requires ReadsResponse(selected, resp)
    ensures |rs| == |selected|
  {
    seq(|selected|, j requires 0 <= j < |selected| => SlotValue(selected[j], resp, defaults, j))
  }

  /** The City/Country not-found loop `for (String field : defaultValues)`: null raises at once. */
  function DefaultsRow(defaults: Option<seq<JString>>): Partial<Value>
  {
    if defaults.None? then Partial([], Some(NullPointer))
    else Partial(seq(|defaults.value|, j requires 0 <= j < |defaults.value| => FromJString(defaults.value[j])), None)
  }

  /** City and Country catch "address not found" and write the defaults; the other kinds go on to call `getVal(null)`. */
  predicate DefaultsWhenNotFound(kind: Kind)
  {
    kind == CityDb || kind == CountryDb
  }

  /**
   * The values `getRowData` computes for the row, in order, and the
   * exception it raises (before considering the bounds of the row).
   */
  function RowValues(kind: Kind, selected: seq<FieldRef>, defaults: Option<seq<JString>>, lookup: Lookup): Partial<Value>
    requires OfKind(selected, kind)
    requires lookup.Found? ==> Answers(kind, lookup.response)
  {
    match lookup
    case Failed(e) => Partial([], Some(e))
    case NotFound =>
      if DefaultsWhenNotFound(kind) then DefaultsRow(defaults)
      else Run(SlotResults(selected, None, defaults))
    case Found(r) => Run(SlotResults(selected, Some(r), defaults))
  }

  /** How many of `n` consecutive writes from `offset` land inside a row of `len` slots. */
  function Fit(offset: int, len: nat, n: nat): (k: nat)
    ensures k <= n
    ensures k > 0 ==> 0 <= offset && offset + k <= len
    ensures k < n ==> offset + k < 0 || offset + k >= len
  {
    if offset < 0 || offset >= len then 0
    else if n <= len - offset then n
    else len - offset
  }

  /** The row after a call and how the call ends. */
  datatype Emitted = Emitted(row: seq<Value>, outcome: Outcome<Error>)

  /**
   * Writing `p.done` into `row` from `offset` with `outputRow[index++] = v`:
   * Java evaluates the value before checking the index, so the loop's own
   * exception comes first when every computed value fit, and otherwise the
   * first write outside the row raises ArrayIndexOutOfBoundsException.
   * Only the written window changes.
   */
  function Emit(row: seq<Value>, offset: int, p: Partial<Value>): (e: Emitted)
    ensures |e.row| == |row|
    ensures forall j :: 0 <= j < |row| ==>
      e.row[j] == if offset <= j < offset + Fit(offset, |row|, |p.done|) then p.done[j - offset] else row[j]
    ensures e.outcome == Pass <==> p.failure.None? && Fit(offset, |row|, |p.done|) == |p.done|
    ensures Fit(offset, |row|, |p.done|) < |p.done| ==> e.outcome == Fail(IndexOutOfBounds)
    ensures Fit(offset, |row|, |p.done|) == |p.done| && p.failure.Some? ==> e.outcome == Fail(p.failure.value)
  {
    var k := Fit(offset, |row|, |p.done|);
    var written := if k == 0 then row else row[..offset] + p.done[..k] + row[offset + k..];
    var outcome :=
      if k < |p.done| then Fail(IndexOutOfBounds)
      else if p.failure.Some? then Fail(p.failure.value)
      else Pass;
    Emitted(written, outcome)
  }

  /**
   * A row that agrees with `row` outside the window and holds `written`
   * inside it is the row `Emit` describes, once `written` is exactly the
   * part of `p.done` that fits.
   */
  lemma EmitRowFrom(row: seq<Value>, offset: int, p: Partial<Value>, written: seq<Value>, now: seq<Value>)
    requires |written| == Fit(offset, |row|, |p.done|) && written == p.done[..|written|]
    requires |now| == |row|
    requires forall j :: 0 <= j < |row| ==>
      now[j] == if offset <= j < offset + |written| then written[j - offset] else row[j]
    ensures now == Emit(row, offset, p).row
  {
  }

  /**
   * Found result: every selected slot gets the extracted value when the
   * extractor yields one and the field's default otherwise, so a result that
   * lacks one text sub-field defaults only that slot; the defaults are
   * consulted only for such slots (they may be `null` when every value is
   * present).
   */
  lemma FoundExtractsOrDefaults(kind: Kind, selected: seq<FieldRef>, defaults: Option<seq<JString>>, r: Response)
    requires OfKind(selected, kind) && Answers(kind, r)
    requires forall i :: 0 <= i < |selected| ==> selected[i].Some?
    requires forall i :: 0 <= i < |selected| ==> SlotFilled(selected[i].value, r, defaults, i)
    ensures RowValues(kind, selected, defaults, Found(r)).failure.None?
    ensures |RowValues(kind, selected, defaults, Found(r)).done| == |selected|
    ensures forall i :: 0 <= i < |selected| ==>
      RowValues(kind, selected, defaults, Found(r)).done[i] == FilledValue(selected[i].value, r, defaults, i)
  {
    var rs := SlotResults(selected, Some(r), defaults);
    RunStopsAt(rs, |rs|);
  }

  /**
   * Found result: the first slot whose extractor yields nothing and that has
   * no default ends the call with NullPointerException (no default array) or
   * ArrayIndexOutOfBoundsException (a shorter one), after the slots before it.
   */
  lemma FoundMissingDefaultFails(kind: Kind, selected: seq<FieldRef>, defaults: Option<seq<JString>>, r: Response, k: nat)
    requires OfKind(selected, kind) && Answers(kind, r)
    requires forall i :: 0 <= i < |selected| ==> selected[i].Some?
    requires k < |selected| && GetVal(selected[k].value, r) == Ok(None)
    requires defaults.None? || k >= |defaults.value|
    requires forall i :: 0 <= i < k ==> SlotFilled(selected[i].value, r, defaults, i)
    ensures |RowValues(kind, selected, defaults, Found(r)).done| == k
    ensures RowValues(kind, selected, defaults, Found(r)).failure ==
      Some(if defaults.None? then NullPointer else IndexOutOfBounds)
    ensures forall i :: 0 <= i < k ==>
      RowValues(kind, selected, defaults, Found(r)).done[i] == FilledValue(selected[i].value, r, defaults, i)
  {
    var rs := SlotResults(selected, Some(r), defaults);
    RunStopsAt(rs, k);
  }

  /**
   * Found result: a selected latitude or longitude that the result lacks
   * (no location, or a location without that coordinate) raises
   * NullPointerException when `(double)` unboxes it, after the slots before
   * it; the defaults are never consulted for it.
   */
  lemma FoundCoordinateMissingFails(kind: Kind, selected: seq<FieldRef>, defaults: Option<seq<JString>>, r: Response, k: nat)
    requires OfKind(selected, kind) && Answers(kind, r)
    requires forall i :: 0 <= i < |selected| ==> selected[i].Some?
    requires k < |selected| && (selected[k] == Some(CityLatitude) || selected[k] == Some(CityLongitude))
    requires r.cityResponse.location.None? ||
      (if selected[k] == Some(CityLatitude) then r.cityResponse.location.value.latitude
       else r.cityResponse.location.value.longitude).None?
    requires forall i :: 0 <= i < k ==> SlotFilled(selected[i].value, r, defaults, i)
    ensures |RowValues(kind, selected, defaults, Found(r)).done| == k
    ensures RowValues(kind, selected, defaults, Found(r)).failure == Some(NullPointer)
    ensures forall i :: 0 <= i < k ==>
      RowValues(kind, selected, defaults, Found(r)).done[i] == FilledValue(selected[i].value, r, defaults, i)
  {
    var rs := SlotResults(selected, Some(r), defaults);
    RunStopsAt(rs, k);
  }

  /**
   * City and Country, address not found: the row is the defaults, in order,
   * whatever the selection is (no extractor is consulted), or
   * NullPointerException when no defaults were set.
   */
  lemma NotFoundWritesDefaults(kind: Kind, selected: seq<FieldRef>, defaults: Option<seq<JString>>)
    requires DefaultsWhenNotFound(kind) && OfKind(selected, kind)
    ensures defaults.None? ==> RowValues(kind, selected, defaults, NotFound) == Partial([], Some(NullPointer))
    ensures defaults.Some? ==>
      var p := RowValues(kind, selected, defaults, NotFound);
      p.failure.None? && |p.done| == |defaults.value| &&
      forall i :: 0 <= i < |defaults.value| ==> p.done[i] == FromJString(defaults.value[i])
  {
  }

  /**
   * City and Country, address not found, with a row that has room from
   * `offset`: exactly `|defaults|` slots are written, holding the defaults,
   * and every other slot is unchanged; with as many defaults as selected
   * fields this is the `|selected|`-slot window.
   */
  lemma NotFoundWindow(kind: Kind, selected: seq<FieldRef>, defaults: seq<JString>, row: seq<Value>, offset: int)
    requires DefaultsWhenNotFound(kind) && OfKind(selected, kind)
    requires 0 <= offset && offset + |defaults| <= |row|
    ensures var e := Emit(row, offset, RowValues(kind, selected, Some(defaults), NotFound));
      e.outcome == Pass &&
      (forall i :: 0 <= i < |defaults| ==> e.row[offset + i] == FromJString(defaults[i])) &&
      (forall j :: 0 <= j < |row| && !(offset <= j < offset + |defaults|) ==> e.row[j] == row[j])
  {
  }

  /**
   * ISP, Organization and Domain, address not found: `getVal(null)` raises
   * NullPointerException as soon as there is a selected field; with an empty
   * selection nothing is written and nothing raises.
   */
  lemma NotFoundGetValNullFails(kind: Kind, selected: seq<FieldRef>, defaults: Option<seq<JString>>)
    requires !DefaultsWhenNotFound(kind) && OfKind(selected, kind)
    ensures RowValues(kind, selected, defaults, NotFound) ==
      if |selected| == 0 then Partial([], None) else Partial([], Some(NullPointer))
  {
  }

  /**
   * With a complete set of values and a row that has room from `offset`,
   * the call completes and the row is the old row with exactly the window
   * `[offset, offset + n)` replaced by the values.
   */
  lemma WrittenWindow(row: seq<Value>, offset: int, p: Partial<Value>)
    requires p.failure.None?
    requires 0 <= offset && offset + |p.done| <= |row|
    ensures Emit(row, offset, p) == Emitted(row[..offset] + p.done + row[offset + |p.done|..], Pass)
  {
  }

  /**
   * Calling `getRowData` a second time with the same lookup outcome on the
   * row the first call left changes nothing and ends the same way.
   */
  lemma EmitIdempotent(row: seq<Value>, offset: int, p: Partial<Value>)
    ensures Emit(Emit(row, offset, p).row, offset, p) == Emit(row, offset, p)
  {
  }
}
