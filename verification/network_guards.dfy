/**
 * The argument checks that open `Network.activate`, `Network.propagate` and
 * `Network.train` (dist/dev/index.js, line 663). The numeric work behind
 * them is floating point and not modelled; what is modelled is when each
 * call throws, with which error, and the option defaults `train` settles
 * before its second check.
 */
module NetworkGuards {
  import opened Results
  import opened Networks

  /** One training sample. */
  datatype Sample = Sample(input: seq<real>, output: seq<real>)

  /** The options `train` reads before it starts; `None` is an option left out. */
  datatype TrainOptions = TrainOptions(dataset: Option<seq<Sample>>, iterations: Option<real>, error: Option<real>)

  /** The stopping conditions `train` settles on: `-1` stands for "not given". */
  datatype Stopping = Stopping(iterations: real, error: real)

  /** `activate` throws a `RangeError` unless the input has one value per input node. */
  function ActivateCheck(n: Network, input: seq<real>): (r: Result<()>)
    ensures r.Ok? <==> |input| == n.inputSize
    ensures r.Err? ==> r.error == RangeError("Input size of dataset is different to network input size!")
  {
    if |input| != n.inputSize then Err(RangeError("Input size of dataset is different to network input size!"))
    else Ok(())
  }

  /** `propagate` throws an `Error` unless the target has one value per output node. */
  function PropagateCheck(n: Network, target: seq<real>): (r: Result<()>)
    ensures r.Ok? <==> |target| == n.outputSize
    ensures r.Err? ==> r.error == PlainError("Output target length should match network output length")
  {
    if |target| != n.outputSize then Err(PlainError("Output target length should match network output length"))
    else Ok(())
  }

  /** The first sample has the network's input and output sizes. */
  predicate FirstSampleFits(n: Network, dataset: seq<Sample>)
    requires |dataset| > 0
  {
    |dataset[0].input| == n.inputSize && |dataset[0].output| == n.outputSize
  }

  /**
   * The checks of `train`, in order: a missing dataset or a first sample of
   * the wrong shape throws an `Error`; an empty dataset throws a `TypeError`
   * (reading `input` of the undefined first sample); `iterations` and
   * `error` default to `-1`, and when neither is positive `train` throws.
   * Only the first sample's shape is checked.
   */
  function TrainCheck(n: Network, o: TrainOptions): (r: Result<Stopping>)
    ensures r.Ok? <==> (o.dataset.Some? && |o.dataset.value| > 0 && FirstSampleFits(n, o.dataset.value) &&
                        (o.iterations.GetOr(-1.0) > 0.0 || o.error.GetOr(-1.0) > 0.0))
    ensures r.Ok? ==> r.value == Stopping(o.iterations.GetOr(-1.0), o.error.GetOr(-1.0))
    ensures o.dataset.Some? && |o.dataset.value| == 0 ==> r == Err(TypeError("Cannot read properties of undefined (reading 'input')"))
    ensures r.Err? && r.error.TypeError? ==> o.dataset.Some? && |o.dataset.value| == 0
  {
    match o.dataset
    case None => Err(PlainError("Dataset input/output size should be same as network input/output size!"))
    case Some(data) =>
      if |data| == 0 then Err(TypeError("Cannot read properties of undefined (reading 'input')"))
      else if !FirstSampleFits(n, data) then Err(PlainError("Dataset input/output size should be same as network input/output size!"))
      else
        var stop := Stopping(o.iterations.GetOr(-1.0), o.error.GetOr(-1.0));
        if stop.iterations <= 0.0 && stop.error <= 0.0 then
          Err(PlainError("At least one of the following options must be specified: error, iterations"))
        else Ok(stop)
  }

  /** Leaving out both `iterations` and `error` always throws, whatever the dataset. */
  lemma TrainNeedsAStop(n: Network, o: TrainOptions)
    requires o.iterations.None? && o.error.None?
    ensures TrainCheck(n, o).Err?
  {
  }

  /** Giving one positive stop is enough once the first sample fits; the other defaults to `-1`. */
  lemma TrainWithIterationsOnly(n: Network, data: seq<Sample>, iterations: real)
    requires |data| > 0 && FirstSampleFits(n, data) && iterations > 0.0
    ensures TrainCheck(n, TrainOptions(Some(data), Some(iterations), None)) == Ok(Stopping(iterations, -1.0))
  {
  }
}
