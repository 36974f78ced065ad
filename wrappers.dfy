/** Option, Result and the Python exceptions the modelled code can raise. */
module Wrappers {

  datatype Option<+T> = None | Some(value: T)

  /** The reasons a `ValueError` is raised along the modelled paths. */
  datatype ValueErrorKind =
    | InvalidIntLiteral            // `int(s)` on a string that is not a decimal literal
    | UnpackMismatch(parts: nat)   // `a, b = s.split('.')` when the split gives `parts != 2` pieces
    | ScanIdNotUnique              // `scan_row` found more than one manifest row
    | NothingToConcatenate         // `pd.concat([])`

  /** The exceptions of the modelled code; each aborts the whole call. */
  datatype Error =
    | KeyError(key: string)        // a dictionary lookup of a missing key
    | JsonDecodeError              // `json.loads` rejected its text
    | TypeError                    // `int(None)`
    | ValueError(kind: ValueErrorKind)
    | IndexError                   // `.values[0]` on an empty column
    | AttributeError(name: string) // a column read from a data-frame that has no columns
    | FileNotFound(path: string)   // `os.listdir` or `pd.read_csv` on a missing path

  datatype Result<+T> = Ok(value: T) | Err(error: Error)
}

/** A loop that applies a raising operation to each element in turn: the first
    exception aborts it, otherwise the results are collected in order. */
module Batches {
  import opened Wrappers

  function Collect<A, B>(xs: seq<A>, f: A -> Result<B>): (r: Result<seq<B>>)
    ensures r.Ok? <==> forall i :: 0 <= i < |xs| ==> f(xs[i]).Ok?
    ensures r.Ok? ==> |r.value| == |xs| && forall i :: 0 <= i < |xs| ==> r.value[i] == f(xs[i]).value
    ensures r.Err? ==> exists k :: 0 <= k < |xs| && f(xs[k]) == Err(r.error) && forall j :: 0 <= j < k ==> f(xs[j]).Ok?
    decreases |xs|
  {
    if xs == [] then Ok([])
    else
      var init := xs[..|xs| - 1];
      assert forall i :: 0 <= i < |init| ==> init[i] == xs[i];
      match Collect(init, f)
      case Err(e) => Err(e)
      case Ok(done) =>
        match f(xs[|xs| - 1])
        case Err(e) => Err(e)
        case Ok(y) => Ok(done + [y])
  }

  /** The loop succeeds exactly when every element's step does, and a failing
      loop fails with the exception of one of its elements. */
  lemma CollectMembers<A, B>(xs: seq<A>, f: A -> Result<B>)
    ensures Collect(xs, f).Ok? <==> forall x :: x in xs ==> f(x).Ok?
    ensures Collect(xs, f).Err? ==> exists x :: x in xs && f(x) == Err(Collect(xs, f).error)
  {
    if Collect(xs, f).Err? {
      var k :| 0 <= k < |xs| && f(xs[k]) == Err(Collect(xs, f).error);
      assert xs[k] in xs;
    }
  }

  /** The position of the step whose exception ends a failing loop. */
  lemma FirstFailure<A, B>(xs: seq<A>, f: A -> Result<B>) returns (k: nat)
    requires Collect(xs, f).Err?
    ensures k < |xs| && f(xs[k]) == Err(Collect(xs, f).error)
    ensures forall j :: 0 <= j < k ==> f(xs[j]).Ok?
  {
    k :| 0 <= k < |xs| && f(xs[k]) == Err(Collect(xs, f).error) && forall j :: 0 <= j < k ==> f(xs[j]).Ok?;
  }

  /** An exception raised on a prefix is the exception of the whole loop. */
  lemma {:induction false} CollectPrefixError<A, B>(xs: seq<A>, f: A -> Result<B>, n: nat)
    requires n <= |xs| && Collect(xs[..n], f).Err?
    ensures Collect(xs, f) == Collect(xs[..n], f)
    decreases |xs| - n
  {
    if n < |xs| {
      var init := xs[..|xs| - 1];
      assert init[..n] == xs[..n];
      CollectPrefixError(init, f, n);
    } else {
      assert xs[..n] == xs;
    }
  }

  /** One more successful step extends the collected results. */
  lemma CollectStepOk<A, B>(xs: seq<A>, f: A -> Result<B>, i: nat, done: seq<B>)
    requires i < |xs| && Collect(xs[..i], f) == Ok(done) && f(xs[i]).Ok?
    ensures Collect(xs[..i + 1], f) == Ok(done + [f(xs[i]).value])
  {
    assert xs[..i + 1][..i] == xs[..i];
  }

  /** A step that raises, after successful ones, raises out of the whole loop. */
  lemma CollectStepError<A, B>(xs: seq<A>, f: A -> Result<B>, i: nat)
    requires i < |xs| && Collect(xs[..i], f).Ok? && f(xs[i]).Err?
    ensures Collect(xs, f) == Err(f(xs[i]).error)
  {
    assert xs[..i + 1][..i] == xs[..i];
    CollectPrefixError(xs, f, i + 1);
  }
}

