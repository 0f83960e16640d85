/** Outcomes of the feature builder and the dataset constructors: either a value,
    or the exception the Python code raises on that input. */
module Results {

  datatype Option<+T> = None | Some(value: T)

  /** The failures the joint intent/slot data code can raise. */
  datatype Error =
    | IndexOutOfRange    // IndexError: a slot-label row shorter than its query, or an input line with no tokens
    | EmptyBatch         // ValueError: max() over the lengths of an empty query list
    | ZeroSamples        // ValueError: num_samples == 0 is refused
    | LineCountMismatch  // AssertionError: slot file and input file disagree on the number of examples
    | NotAnInteger       // ValueError: int() applied to a token that is not an integer

  datatype Result<+T> = Ok(value: T) | Err(error: Error)

  /** A Python loop whose i-th step yields steps[i]: it collects the values
      when every step succeeds, and otherwise raises the error of the first
      step that fails (the steps are pure, so computing the later ones changes
      nothing). */
  function Each<T>(steps: seq<Result<T>>): (r: Result<seq<T>>)
    ensures r.Ok? <==> forall i :: 0 <= i < |steps| ==> steps[i].Ok?
    ensures r.Ok? ==> |r.value| == |steps| && forall i :: 0 <= i < |steps| ==> steps[i] == Ok(r.value[i])
    ensures r.Err? ==> exists i :: 0 <= i < |steps| && steps[i] == Err(r.error) && forall j :: 0 <= j < i ==> steps[j].Ok?
    decreases |steps|
  {
    if steps == [] then Ok([])
    else
      var n := |steps| - 1;
      assert forall i :: 0 <= i < n ==> steps[..n][i] == steps[i];
      match Each(steps[..n])
      case Err(e) => Err(e)
      case Ok(vs) =>
        match steps[n]
        case Err(e) => Err(e)
        case Ok(v) => Ok(vs + [v])
  }
}
