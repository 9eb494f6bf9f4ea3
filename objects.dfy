/**
 * The Java values the engine reads and writes: nullable strings, the
 * elements of the caller's `Object[]` row, and the exceptions that can end
 * an operation part-way through.
 */
module Objects {
  import opened Wrappers

  /** A Java `String` reference: `None` stands for `null`. */
  type JString = Option<string>

  /** The exceptions the engine can raise or propagate. */
  datatype Error =
    | NullPointer              // java.lang.NullPointerException
    | IndexOutOfBounds         // java.lang.ArrayIndexOutOfBoundsException
    | UnknownField(name: string)  // IllegalArgumentException from an enum's valueOf
    | InvalidAddress           // IllegalArgumentException from parsing the IP text
    | ProviderFailure          // IOException or GeoIp2Exception other than "address not found"

  /**
   * An element of the output row (a Java `Object`): `null`, a `String`, or a
   * boxed `Double` (coordinates are only copied, never computed with, so a
   * `real` stands for the double).
   */
  datatype Value = Null | Text(text: string) | Decimal(degrees: real)

  /** The row value a (possibly null) default string contributes. */
  function FromJString(s: JString): Value
  {
    if s.None? then Null else Text(s.value)
  }

  /** Kettle's `Const.isEmpty(String)`: null or of length zero. */
  predicate IsEmpty(s: JString)
  {
    s.None? || s.value == ""
  }

  /**
   * What a loop that stops at the first exception produces: the values
   * computed before it (`done`, in order) and the exception, if one was
   * raised.
   */
  datatype Partial<T> = Partial(done: seq<T>, failure: Option<Error>)

  /**
   * A loop that produces `rs[0]`, `rs[1]`, ... in turn and stops at the
   * first exception.
   */
  function Run<T>(rs: seq<Result<T, Error>>): Partial<T>
  {
    if rs == [] then Partial([], None)
    else if rs[0].Err? then Partial([], Some(rs[0].error))
    else
      var rest := Run(rs[1..]);
      Partial([rs[0].value] + rest.done, rest.failure)
  }

  /**
   * What such a loop produces: the values of the longest prefix of `rs`
   * without an exception, in order, and then either nothing more (the whole
   * of `rs` succeeded) or the exception of the first failing step.
   */
  lemma {:induction false} RunSpec<T>(rs: seq<Result<T, Error>>)
    ensures |Run(rs).done| <= |rs|
    ensures forall j :: 0 <= j < |Run(rs).done| ==> rs[j] == Ok(Run(rs).done[j])
    ensures |Run(rs).done| < |rs| ==>
      rs[|Run(rs).done|].Err? && Run(rs).failure == Some(rs[|Run(rs).done|].error)
    ensures |Run(rs).done| == |rs| ==> Run(rs).failure.None?
  {
    if rs != [] && rs[0].Ok? {
      RunSpec(rs[1..]);
      var rest := Run(rs[1..]);
      assert Run(rs).done == [rs[0].value] + rest.done;
      forall j | 0 < j < |Run(rs).done| ensures rs[j] == Ok(Run(rs).done[j]) {
        assert Run(rs).done[j] == rest.done[j - 1] && rs[j] == rs[1..][j - 1];
      }
      if |Run(rs).done| < |rs| {
        assert rs[|Run(rs).done|] == rs[1..][|rest.done|];
      }
    }
  }

  /**
   * A loop that met no exception in its first `i` steps, and then either
   * finished or raised at step `i`, produced exactly those `i` values.
   */
  lemma RunStopsAt<T>(rs: seq<Result<T, Error>>, i: nat)
    requires i <= |rs|
    requires forall j :: 0 <= j < i ==> rs[j].Ok?
    requires i < |rs| ==> rs[i].Err?
    ensures |Run(rs).done| == i
    ensures forall j :: 0 <= j < i ==> Run(rs).done[j] == rs[j].value
    ensures Run(rs).failure == if i < |rs| then Some(rs[i].error) else None
  {
    RunSpec(rs);
  }

  /** A loop that met no exception in its first `i + 1` steps produced more than `i` values, those first. */
  lemma RunPasses<T>(rs: seq<Result<T, Error>>, i: nat)
    requires i < |rs|
    requires forall j :: 0 <= j <= i ==> rs[j].Ok?
    ensures |Run(rs).done| > i
    ensures forall j :: 0 <= j <= i ==> Run(rs).done[j] == rs[j].value
  {
    RunSpec(rs);
  }
}
