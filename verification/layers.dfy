/**
 The network-architecture builders: `mlp`, `conv_encoder`, the FiLM
 generator's forward pass, the conditioning checks of the encoders'
 forward passes, and the transformer encoder's input width.

 A network is modelled as the list of layer descriptors handed to
 `nn.Sequential`; weights, initialisation and the tensor arithmetic of the
 layers themselves are not modelled. Tensor shapes are `seq<nat>`.
 */
module Layers {
  import opened Outcome
  import opened RealSeqs

  // Messages of the exceptions raised below.
  const InvalidOutputMessage := "Invalid conv_output_to_1d"
  const InputRankMessage := "2 <= len(input_shape) <= 4"
  const FilmInputMessage := "x.shape[1] == self.film_input_dim"
  const InputShapeUnpackMessage := "input_shape does not unpack into two values"
  const XShapeMessage := "x.shape == (batch_size, n_channels, seq_len)"
  const ConditioningMessage := "conditioning is None and conditioning_dim is None, or shape == (batch_size, conditioning_dim)"
  const ConditioningPairMessage := "conditioning and conditioning_dim are both given or both absent"
  const ConditioningShapeMessage := "conditioning.shape == (batch_size, conditioning_dim)"

  /** The activation class passed to a builder (`nn.ReLU` and `nn.Identity` are the defaults). */
  datatype ActivationKind = ReLU | Identity | OtherActivation(name: string)

  /** `PoolType`; `InvalidPool` stands for any other value a caller passes. */
  datatype PoolType = PoolMax | PoolAvg | InvalidPool

  /** `ConvOutputTo1D`; `InvalidOutputTo1D` stands for any other value a caller passes. */
  datatype ConvOutputTo1D =
    | Flatten
    | AvgPoolSpatial
    | AvgPoolChannel
    | MaxPoolSpatial
    | MaxPoolChannel
    | InvalidOutputTo1D

  /**
   One layer of an `nn.Sequential`. `dims` is the number of spatial
   dimensions (the 1d/2d/3d variant). Convolutions have kernel 3, stride 1
   and "same" padding; pools have kernel 2 and stride 2; adaptive pools
   have output size 1 in every spatial dimension.
   */
  datatype Layer =
    | Linear(inFeatures: int, outFeatures: int)
    | Act(kind: ActivationKind)
    | ConvNd(dims: nat, inChannels: int, outChannels: int)
    | MaxPoolNd(dims: nat)
    | AvgPoolNd(dims: nat)
    | DropoutNd(dims: nat, p: real)
    | AdaptiveMaxPoolNd(dims: nat)
    | AdaptiveAvgPoolNd(dims: nat)
    | MeanOverChannels
    | MaxOverChannels
    | FlattenFromDim1

  // ---------------------------------------------------------------------
  // Feature and channel counts through a layer list

  /**
   The feature (or channel) count a layer hands on when given `width`:
   `Linear` and `ConvNd` reject any other input count than their own and
   replace it by their output count; every other layer keeps it.
   */
  function StepWidth(l: Layer, width: int): Option<int> {
    match l
    case Linear(i, o) => if i == width then Some(o) else None
    case ConvNd(_, i, o) => if i == width then Some(o) else None
    case _ => Some(width)
  }

  /** The count after running an input of `width` through the layers, `None` if a layer rejects it. */
  function Feed(layers: seq<Layer>, width: int): Option<int>
    decreases |layers|
  {
    if |layers| == 0 then Some(width)
    else
      match StepWidth(layers[0], width)
      case None => None
      case Some(w) => Feed(layers[1..], w)
  }

  /** Feeding through a concatenation feeds through each part in turn. */
  lemma {:induction false} FeedAppend(a: seq<Layer>, b: seq<Layer>, width: int)
    ensures Feed(a + b, width) == (if Feed(a, width).Some? then Feed(b, Feed(a, width).value) else None)
    decreases |a|
  {
    if |a| == 0 {
      assert a + b == b;
    } else {
      FeedCons(a[0], a[1..] + b, width);
      assert a + b == [a[0]] + (a[1..] + b);
      FeedCons(a[0], a[1..], width);
      assert a == [a[0]] + a[1..];
      match StepWidth(a[0], width)
      case None =>
      case Some(w) =>
        FeedAppend(a[1..], b, w);
    }
  }

  lemma FeedCons(l: Layer, rest: seq<Layer>, width: int)
    ensures Feed([l] + rest, width) == (if StepWidth(l, width).Some? then Feed(rest, StepWidth(l, width).value) else None)
  {
    assert ([l] + rest)[0] == l;
    assert ([l] + rest)[1..] == rest;
  }

  /** The number of layers satisfying `isKind`. */
  function Count(layers: seq<Layer>, isKind: Layer -> bool): nat
    decreases |layers|
  {
    if |layers| == 0 then 0
    else (if isKind(layers[0]) then 1 else 0) + Count(layers[1..], isKind)
  }

  lemma {:induction false} CountAppend(a: seq<Layer>, b: seq<Layer>, isKind: Layer -> bool)
    ensures Count(a + b, isKind) == Count(a, isKind) + Count(b, isKind)
    decreases |a|
  {
    if |a| == 0 {
      assert a + b == b;
    } else {
      CountCons(a[0], a[1..] + b, isKind);
      assert a + b == [a[0]] + (a[1..] + b);
      CountCons(a[0], a[1..], isKind);
      assert a == [a[0]] + a[1..];
      CountAppend(a[1..], b, isKind);
    }
  }

  lemma CountCons(l: Layer, rest: seq<Layer>, isKind: Layer -> bool)
    ensures Count([l] + rest, isKind) == (if isKind(l) then 1 else 0) + Count(rest, isKind)
  {
    assert ([l] + rest)[0] == l;
    assert ([l] + rest)[1..] == rest;
  }

  predicate IsConv(l: Layer) {
    l.ConvNd?
  }

  predicate IsDropout(l: Layer) {
    l.DropoutNd?
  }

  // ---------------------------------------------------------------------
  // mlp

  /** `[num_inputs] + hidden_layers + [num_outputs]`. */
  function LayerSizes(numInputs: int, numOutputs: int, hidden: seq<int>): (sizes: seq<int>)
    ensures |sizes| == |hidden| + 2
    ensures sizes[0] == numInputs && sizes[|sizes| - 1] == numOutputs
  {
    [numInputs] + hidden + [numOutputs]
  }

  /**
   The layers of an MLP over the given sizes: for each consecutive pair a
   `Linear` followed by an activation, `outAct` after the last pair and
   `act` after every other one.
   */
  function MlpLayers(sizes: seq<int>, act: ActivationKind, outAct: ActivationKind): (r: seq<Layer>)
    requires |sizes| >= 1
    ensures |r| == 2 * (|sizes| - 1)
    decreases |sizes|
  {
    if |sizes| == 1 then []
    else [Linear(sizes[0], sizes[1]), Act(if |sizes| == 2 then outAct else act)] + MlpLayers(sizes[1..], act, outAct)
  }

  /** Layer pair i of an MLP is Linear(sizes[i], sizes[i+1]) and then its activation. */
  lemma {:induction false} MlpLayerAt(sizes: seq<int>, act: ActivationKind, outAct: ActivationKind, i: nat)
    requires i < |sizes| - 1
    ensures MlpLayers(sizes, act, outAct)[2 * i] == Linear(sizes[i], sizes[i + 1])
    ensures MlpLayers(sizes, act, outAct)[2 * i + 1] == Act(if i < |sizes| - 2 then act else outAct)
    decreases i
  {
    if i > 0 {
      var rest := MlpLayers(sizes[1..], act, outAct);
      assert MlpLayers(sizes, act, outAct) == [Linear(sizes[0], sizes[1]), Act(if |sizes| == 2 then outAct else act)] + rest;
      MlpLayerAt(sizes[1..], act, outAct, i - 1);
    }
  }

  /** An MLP accepts `sizes[0]` features and hands on the last size. */
  lemma {:induction false} MlpChains(sizes: seq<int>, act: ActivationKind, outAct: ActivationKind)
    requires |sizes| >= 1
    ensures Feed(MlpLayers(sizes, act, outAct), sizes[0]) == Some(sizes[|sizes| - 1])
    decreases |sizes|
  {
    if |sizes| > 1 {
      var head := [Linear(sizes[0], sizes[1]), Act(if |sizes| == 2 then outAct else act)];
      var rest := MlpLayers(sizes[1..], act, outAct);
      assert Feed(head, sizes[0]) == Some(sizes[1]) by {
        FeedCons(head[0], [head[1]], sizes[0]);
        FeedCons(head[1], [], sizes[1]);
        assert head == [head[0]] + [head[1]];
        assert [head[1]] == [head[1]] + [];
      }
      FeedAppend(head, rest, sizes[0]);
      MlpChains(sizes[1..], act, outAct);
    }
  }

  /** `mlp`, built by the source's loop over the consecutive size pairs. */
  method Mlp(numInputs: int, numOutputs: int, hidden: seq<int>, activation: ActivationKind, outputActivation: ActivationKind)
    returns (layers: seq<Layer>)
    ensures layers == MlpLayers(LayerSizes(numInputs, numOutputs, hidden), activation, outputActivation)
  {
    var sizes := LayerSizes(numInputs, numOutputs, hidden);
    ghost var spec := MlpLayers(sizes, activation, outputActivation);
    layers := [];
    var i := 0;
    while i < |sizes| - 1
      invariant 0 <= i <= |sizes| - 1
      invariant |layers| == 2 * i
      invariant forall k :: 0 <= k < |layers| ==> layers[k] == spec[k]
    {
      var act := if i < |sizes| - 2 then activation else outputActivation;
      MlpLayerAt(sizes, activation, outputActivation, i);
      layers := layers + [Linear(sizes[i], sizes[i + 1]), Act(act)];
      i := i + 1;
    }
    assert |layers| == |spec|;
  }

  // ---------------------------------------------------------------------
  // conv_encoder

  function PoolLayer(pool: PoolType, dims: nat): Layer {
    if pool == PoolMax then MaxPoolNd(dims) else AvgPoolNd(dims)
  }

  /** One block: convolution, activation, pool, and a dropout layer when p is not zero. */
  function Block(dims: nat, inC: int, outC: int, pool: PoolType, p: real, act: ActivationKind): (r: seq<Layer>)
    ensures |r| == BlockSize(p)
  {
    [ConvNd(dims, inC, outC), Act(act), PoolLayer(pool, dims)] + (if p != 0.0 then [DropoutNd(dims, p)] else [])
  }

  /** The number of layers in one block. */
  function BlockSize(p: real): nat {
    if p != 0.0 then 4 else 3
  }

  /** One block per entry of `channels`, the first reading `inC` channels and each later one the previous entry. */
  function Blocks(dims: nat, inC: int, channels: seq<int>, pool: PoolType, p: real, act: ActivationKind): (r: seq<Layer>)
    ensures |r| == |channels| * BlockSize(p)
    decreases |channels|
  {
    if |channels| == 0 then []
    else Block(dims, inC, channels[0], pool, p, act) + Blocks(dims, channels[0], channels[1..], pool, p, act)
  }

  /** The channel count block i reads. */
  function InChannels(inC: int, channels: seq<int>, i: nat): int
    requires i < |channels|
  {
    if i == 0 then inC else channels[i - 1]
  }

  /** The channel count the last block hands on (the input count when there are no blocks). */
  function LastChannels(inC: int, channels: seq<int>): int {
    if |channels| == 0 then inC else channels[|channels| - 1]
  }

  /** Block i is conv(in_i, channels[i]), activation, pool(2, 2) and, when p is not zero, dropout. */
  lemma {:induction false} BlockAt(dims: nat, inC: int, channels: seq<int>, pool: PoolType, p: real, act: ActivationKind, i: nat)
    requires i < |channels|
    ensures BlockSize(p) * i + BlockSize(p) <= |Blocks(dims, inC, channels, pool, p, act)|
    ensures Blocks(dims, inC, channels, pool, p, act)[BlockSize(p) * i] == ConvNd(dims, InChannels(inC, channels, i), channels[i])
    ensures Blocks(dims, inC, channels, pool, p, act)[BlockSize(p) * i + 1] == Act(act)
    ensures Blocks(dims, inC, channels, pool, p, act)[BlockSize(p) * i + 2] == PoolLayer(pool, dims)
    ensures p != 0.0 ==> Blocks(dims, inC, channels, pool, p, act)[BlockSize(p) * i + 3] == DropoutNd(dims, p)
    decreases i
  {
    var k := BlockSize(p);
    var first := Block(dims, inC, channels[0], pool, p, act);
    var rest := Blocks(dims, channels[0], channels[1..], pool, p, act);
    assert Blocks(dims, inC, channels, pool, p, act) == first + rest;
    if i > 0 {
      BlockAt(dims, channels[0], channels[1..], pool, p, act, i - 1);
      assert InChannels(channels[0], channels[1..], i - 1) == InChannels(inC, channels, i);
      assert k * i == k + k * (i - 1);
    }
  }

  /** The blocks accept `inC` channels and hand on the last entry of `channels`. */
  lemma {:induction false} BlocksChain(dims: nat, inC: int, channels: seq<int>, pool: PoolType, p: real, act: ActivationKind)
    ensures Feed(Blocks(dims, inC, channels, pool, p, act), inC) == Some(LastChannels(inC, channels))
    decreases |channels|
  {
    if |channels| > 0 {
      var first := Block(dims, inC, channels[0], pool, p, act);
      assert Feed(first, inC) == Some(channels[0]) by {
        BlockFeed(dims, inC, channels[0], pool, p, act);
      }
      FeedAppend(first, Blocks(dims, channels[0], channels[1..], pool, p, act), inC);
      BlocksChain(dims, channels[0], channels[1..], pool, p, act);
    }
  }

  lemma BlockFeed(dims: nat, inC: int, outC: int, pool: PoolType, p: real, act: ActivationKind)
    ensures Feed(Block(dims, inC, outC, pool, p, act), inC) == Some(outC)
  {
    var d: seq<Layer> := if p != 0.0 then [DropoutNd(dims, p)] else [];
    var tail := [PoolLayer(pool, dims)] + d;
    assert Block(dims, inC, outC, pool, p, act) == [ConvNd(dims, inC, outC)] + ([Act(act)] + tail);
    FeedCons(ConvNd(dims, inC, outC), [Act(act)] + tail, inC);
    FeedCons(Act(act), tail, outC);
    FeedCons(PoolLayer(pool, dims), d, outC);
    if p != 0.0 {
      FeedCons(DropoutNd(dims, p), [], outC);
      assert d == [DropoutNd(dims, p)] + [];
    }
  }

  /** There is one convolution per entry of `channels`, and one dropout per block exactly when p is not zero. */
  lemma {:induction false} BlocksCounts(dims: nat, inC: int, channels: seq<int>, pool: PoolType, p: real, act: ActivationKind)
    ensures Count(Blocks(dims, inC, channels, pool, p, act), IsConv) == |channels|
    ensures Count(Blocks(dims, inC, channels, pool, p, act), IsDropout) == (if p != 0.0 then |channels| else 0)
    decreases |channels|
  {
    if |channels| > 0 {
      var first := Block(dims, inC, channels[0], pool, p, act);
      var rest := Blocks(dims, channels[0], channels[1..], pool, p, act);
      BlockCounts(dims, inC, channels[0], pool, p, act);
      CountAppend(first, rest, IsConv);
      CountAppend(first, rest, IsDropout);
      BlocksCounts(dims, channels[0], channels[1..], pool, p, act);
    }
  }

  lemma BlockCounts(dims: nat, inC: int, outC: int, pool: PoolType, p: real, act: ActivationKind)
    ensures Count(Block(dims, inC, outC, pool, p, act), IsConv) == 1
    ensures Count(Block(dims, inC, outC, pool, p, act), IsDropout) == (if p != 0.0 then 1 else 0)
  {
    var d: seq<Layer> := if p != 0.0 then [DropoutNd(dims, p)] else [];
    var tail := [PoolLayer(pool, dims)] + d;
    assert Block(dims, inC, outC, pool, p, act) == [ConvNd(dims, inC, outC)] + ([Act(act)] + tail);
    CountCons(ConvNd(dims, inC, outC), [Act(act)] + tail, IsConv);
    CountCons(Act(act), tail, IsConv);
    CountCons(PoolLayer(pool, dims), d, IsConv);
    CountCons(ConvNd(dims, inC, outC), [Act(act)] + tail, IsDropout);
    CountCons(Act(act), tail, IsDropout);
    CountCons(PoolLayer(pool, dims), d, IsDropout);
    if p != 0.0 {
      CountCons(DropoutNd(dims, p), [], IsConv);
      CountCons(DropoutNd(dims, p), [], IsDropout);
      assert d == [DropoutNd(dims, p)] + [];
    }
  }

  /** The layers that turn the last block's output into one vector per item, with the source's map. */
  function OutputLayersAsWritten(o: ConvOutputTo1D, dims: nat): Result<seq<Layer>> {
    match o
    case Flatten => Ok([FlattenFromDim1])
    case AvgPoolSpatial => Ok([AdaptiveMaxPoolNd(dims), FlattenFromDim1])
    case MaxPoolSpatial => Ok([AdaptiveMaxPoolNd(dims), FlattenFromDim1])
    case AvgPoolChannel => Ok([MeanOverChannels, FlattenFromDim1])
    case MaxPoolChannel => Ok([MaxOverChannels, FlattenFromDim1])
    case InvalidOutputTo1D => Err(ValueError(InvalidOutputMessage))
  }

  /** The same with average spatial pooling installing an adaptive average pool. */
  function OutputLayers(o: ConvOutputTo1D, dims: nat): Result<seq<Layer>> {
    if o == AvgPoolSpatial then Ok([AdaptiveAvgPoolNd(dims), FlattenFromDim1])
    else OutputLayersAsWritten(o, dims)
  }

  /**
   `conv_encoder` as written. The dropout class is looked up for every
   input, and the lookup table has no entry for one spatial dimension.
   */
  function ConvEncoderAsWritten(inputShape: seq<int>, channels: seq<int>, pool: PoolType, p: real, o: ConvOutputTo1D, act: ActivationKind)
    : (r: Result<seq<Layer>>)
    ensures r.Ok? <==> 2 <= |inputShape| <= 4 && pool != InvalidPool && |inputShape| != 2 && o != InvalidOutputTo1D
    ensures !(2 <= |inputShape| <= 4) ==> r.Err? && r.error.AssertionError?
    ensures 2 <= |inputShape| <= 4 && pool == InvalidPool ==> r.Err? && r.error.ValueError?
    ensures 2 <= |inputShape| <= 4 && pool != InvalidPool && |inputShape| == 2 ==> r.Err? && r.error.KeyError?
    ensures 2 <= |inputShape| <= 4 && pool != InvalidPool && |inputShape| != 2 && o == InvalidOutputTo1D ==>
              r.Err? && r.error.ValueError?
  {
    var _ :- Check(2 <= |inputShape| <= 4, InputRankMessage);
    var dims := |inputShape| - 1;
    var _ :- Need(pool != InvalidPool, ValueError("Invalid pool_type"));
    var _ :- Need(dims != 1, KeyError("1"));
    var tail :- OutputLayersAsWritten(o, dims);
    Ok(Blocks(dims, inputShape[0], channels, pool, p, act) + tail)
  }

  /**
   `conv_encoder` with the dropout class looked up only when a dropout
   layer is inserted, and with average spatial pooling averaging.
   */
  function ConvEncoder(inputShape: seq<int>, channels: seq<int>, pool: PoolType, p: real, o: ConvOutputTo1D, act: ActivationKind)
    : (r: Result<seq<Layer>>)
    ensures r.Ok? <==> 2 <= |inputShape| <= 4 && pool != InvalidPool && (p == 0.0 || |inputShape| != 2) && o != InvalidOutputTo1D
    ensures !(2 <= |inputShape| <= 4) ==> r.Err? && r.error.AssertionError?
    ensures 2 <= |inputShape| <= 4 && pool == InvalidPool ==> r.Err? && r.error.ValueError?
    ensures 2 <= |inputShape| <= 4 && pool != InvalidPool && p != 0.0 && |inputShape| == 2 ==> r.Err? && r.error.KeyError?
    ensures 2 <= |inputShape| <= 4 && pool != InvalidPool && (p == 0.0 || |inputShape| != 2) && o == InvalidOutputTo1D ==>
              r.Err? && r.error.ValueError?
  {
    var _ :- Check(2 <= |inputShape| <= 4, InputRankMessage);
    var dims := |inputShape| - 1;
    var _ :- Need(pool != InvalidPool, ValueError("Invalid pool_type"));
    var _ :- Need(p == 0.0 || dims != 1, KeyError("1"));
    var tail :- OutputLayers(o, dims);
    Ok(Blocks(dims, inputShape[0], channels, pool, p, act) + tail)
  }

  /**
   A built encoder starts with the blocks for its spatial dimension count
   and input channels and ends with one or two layers closing in a flatten.
   */
  lemma EncoderLayout(inputShape: seq<int>, channels: seq<int>, pool: PoolType, p: real, o: ConvOutputTo1D, act: ActivationKind)
    requires ConvEncoder(inputShape, channels, pool, p, o, act).Ok?
    ensures var layers := ConvEncoder(inputShape, channels, pool, p, o, act).value;
            var blocks := Blocks(|inputShape| - 1, inputShape[0], channels, pool, p, act);
            && blocks <= layers
            && |layers| - |blocks| in {1, 2}
            && layers[|layers| - 1] == FlattenFromDim1
  {
  }

  /** As written, an input with one spatial dimension never builds, whatever the dropout probability. */
  lemma AsWrittenRejects1D(inputShape: seq<int>, channels: seq<int>, pool: PoolType, p: real, o: ConvOutputTo1D, act: ActivationKind)
    requires |inputShape| == 2 && pool != InvalidPool
    ensures ConvEncoderAsWritten(inputShape, channels, pool, p, o, act) == Err(KeyError("1"))
  {
  }

  /** So the non-ResNet `ConvEncoder1D` always fails to construct its encoder. */
  lemma ConvEncoder1DNonResnetFails(nChannels: int, seqLen: int)
    ensures ConvEncoderAsWritten([nChannels, seqLen], [32, 64, 128, 256], PoolMax, 0.0, Flatten, ReLU).Err?
  {
    AsWrittenRejects1D([nChannels, seqLen], [32, 64, 128, 256], PoolMax, 0.0, Flatten, ReLU);
  }

  /** The corrected builder accepts that same configuration and produces its four blocks. */
  lemma Corrected1DBuilds(nChannels: int, seqLen: int)
    ensures var r := ConvEncoder([nChannels, seqLen], [32, 64, 128, 256], PoolMax, 0.0, Flatten, ReLU);
            && r.Ok?
            && Count(r.value, IsConv) == 4
            && Count(r.value, IsDropout) == 0
  {
    var blocks := Blocks(1, nChannels, [32, 64, 128, 256], PoolMax, 0.0, ReLU);
    BlocksCounts(1, nChannels, [32, 64, 128, 256], PoolMax, 0.0, ReLU);
    CountAppend(blocks, [FlattenFromDim1], IsConv);
    CountAppend(blocks, [FlattenFromDim1], IsDropout);
  }

  /** As written, asking for average spatial pooling builds exactly the max-pooling encoder. */
  lemma AsWrittenAvgPoolIsMaxPool(inputShape: seq<int>, channels: seq<int>, pool: PoolType, p: real, act: ActivationKind)
    ensures ConvEncoderAsWritten(inputShape, channels, pool, p, AvgPoolSpatial, act)
         == ConvEncoderAsWritten(inputShape, channels, pool, p, MaxPoolSpatial, act)
  {
  }

  /** Corrected, average spatial pooling installs an adaptive average pool before the flatten. */
  lemma CorrectedAvgPoolAverages(inputShape: seq<int>, channels: seq<int>, pool: PoolType, p: real, act: ActivationKind)
    requires ConvEncoder(inputShape, channels, pool, p, AvgPoolSpatial, act).Ok?
    ensures var layers := ConvEncoder(inputShape, channels, pool, p, AvgPoolSpatial, act).value;
            layers[|layers| - 2] == AdaptiveAvgPoolNd(|inputShape| - 1)
  {
  }

  /** Away from the two defects the corrected builder is the source's. */
  lemma CorrectedAgreesOffDefects(inputShape: seq<int>, channels: seq<int>, pool: PoolType, p: real, o: ConvOutputTo1D, act: ActivationKind)
    requires |inputShape| != 2 && o != AvgPoolSpatial
    ensures ConvEncoder(inputShape, channels, pool, p, o, act) == ConvEncoderAsWritten(inputShape, channels, pool, p, o, act)
  {
  }

  // ---------------------------------------------------------------------
  // FiLM

  /** The FiLM parameters for a batch: one β row and one γ row per item. */
  datatype Film = Film(beta: seq<seq<real>>, gamma: seq<seq<real>>)

  /** Adds c to every entry. */
  function Shift(v: seq<real>, c: real): (r: seq<real>)
    ensures |r| == |v|
    ensures forall k :: 0 <= k < |v| ==> r[k] == v[k] + c
  {
    seq(|v|, k requires 0 <= k < |v| => v[k] + c)
  }

  /**
   `FiLMGenerator.forward`. `net` is the generator's MLP applied to one
   row; the MLP is built with `2 * numParams` outputs (see `MlpChains`),
   so every output row has that width. The output is cut into halves:
   β is the first, and γ is the second plus one.
   */
  function FilmForward(x: seq<seq<real>>, filmInputDim: nat, numParams: nat, net: seq<real> -> seq<real>): (r: Result<Film>)
    requires forall v :: |net(v)| == 2 * numParams
    ensures r.Ok? <==> HasWidth(x, filmInputDim)
    ensures r.Err? ==> r.error.AssertionError?
    ensures r.Ok? ==> |r.value.beta| == |x| && |r.value.gamma| == |x|
    ensures r.Ok? ==> HasWidth(r.value.beta, numParams) && HasWidth(r.value.gamma, numParams)
  {
    var _ :- Check(HasWidth(x, filmInputDim), FilmInputMessage);
    var out := seq(|x|, b requires 0 <= b < |x| => net(x[b]));
    var beta := seq(|x|, b requires 0 <= b < |x| => out[b][..numParams]);
    var gamma := seq(|x|, b requires 0 <= b < |x| => Shift(out[b][numParams..], 1.0));
    Ok(Film(beta, gamma))
  }

  /** β[b][k] is output k of the MLP on row b, and γ[b][k] is output n+k plus one. */
  lemma FilmAt(x: seq<seq<real>>, filmInputDim: nat, numParams: nat, net: seq<real> -> seq<real>, b: nat, k: nat)
    requires forall v :: |net(v)| == 2 * numParams
    requires HasWidth(x, filmInputDim) && b < |x| && k < numParams
    ensures FilmForward(x, filmInputDim, numParams, net).value.beta[b][k] == net(x[b])[k]
    ensures FilmForward(x, filmInputDim, numParams, net).value.gamma[b][k] == net(x[b])[numParams + k] + 1.0
  {
  }

  /** Subtracting the baseline one from γ and appending it to β recovers the MLP's output row. */
  lemma FilmRecoversOutput(x: seq<seq<real>>, filmInputDim: nat, numParams: nat, net: seq<real> -> seq<real>, b: nat)
    requires forall v :: |net(v)| == 2 * numParams
    requires HasWidth(x, filmInputDim) && b < |x|
    ensures var f := FilmForward(x, filmInputDim, numParams, net).value;
            f.beta[b] + Shift(f.gamma[b], -1.0) == net(x[b])
  {
    var f := FilmForward(x, filmInputDim, numParams, net).value;
    var o := net(x[b]);
    assert f.beta[b] == o[..numParams];
    assert Shift(f.gamma[b], -1.0) == o[numParams..];
    assert o == o[..numParams] + o[numParams..];
  }

  /** An MLP output of all zeros is the identity modulation: β = 0 and γ = 1. */
  lemma FilmZeroIsIdentity(x: seq<seq<real>>, filmInputDim: nat, numParams: nat, net: seq<real> -> seq<real>, b: nat)
    requires forall v :: |net(v)| == 2 * numParams
    requires HasWidth(x, filmInputDim) && b < |x|
    requires forall k :: 0 <= k < 2 * numParams ==> net(x[b])[k] == 0.0
    ensures var f := FilmForward(x, filmInputDim, numParams, net).value;
            && (forall k :: 0 <= k < numParams ==> f.beta[b][k] == 0.0)
            && (forall k :: 0 <= k < numParams ==> f.gamma[b][k] == 1.0)
  {
    var f := FilmForward(x, filmInputDim, numParams, net).value;
    forall k | 0 <= k < numParams
      ensures f.beta[b][k] == 0.0 && f.gamma[b][k] == 1.0
    {
      FilmAt(x, filmInputDim, numParams, net, b, k);
    }
  }

  // ---------------------------------------------------------------------
  // Conditioning

  /**
   The start of `ConvEncoder2D.forward` / `ConvEncoder1D.forward`: the
   conditioning check and the FiLM step. `batchSize` is x.shape[0];
   `numFilmParams` is `None` when the convolution part has no FiLM
   parameters, in which case no generator was built. The shape check on
   β and γ that follows the generator is not a branch here:
   `ConditioningAccepted` proves it always holds.
   */
  function ConditionedFilm(batchSize: nat, conditioning: Option<seq<seq<real>>>, conditioningDim: Option<nat>,
                           numFilmParams: Option<nat>, net: seq<real> -> seq<real>)
    : (r: Result<Option<Film>>)
    requires numFilmParams.Some? ==> forall v :: |net(v)| == 2 * numFilmParams.value
  {
    var _ :- Check(ConditioningValid(batchSize, conditioning, conditioningDim), ConditioningMessage);
    if conditioning.None? then Ok(None)
    else
      var _ :- Need(numFilmParams.Some?, AttributeError("film_generator"));
      var n := numFilmParams.value;
      var f :- FilmForward(conditioning.value, conditioningDim.value, n, net);
      Ok(Some(f))
  }

  /** Conditioning and its dimension are both absent, or both present with shape (batch, dim). */
  predicate ConditioningValid(batchSize: nat, conditioning: Option<seq<seq<real>>>, conditioningDim: Option<nat>) {
    || (conditioning.None? && conditioningDim.None?)
    || (conditioning.Some? && conditioningDim.Some?
        && |conditioning.value| == batchSize && HasWidth(conditioning.value, conditioningDim.value))
  }

  /** β and γ both have shape (batch, n). */
  predicate FilmShaped(f: Film, batchSize: nat, n: nat) {
    |f.beta| == batchSize && HasWidth(f.beta, n) && |f.gamma| == batchSize && HasWidth(f.gamma, n)
  }

  /**
   Conditioning is accepted exactly when it and its dimension are both
   absent, or both present with shape (batch, dim) and a generator exists;
   then FiLM parameters are produced exactly when conditioning is given,
   with shape (batch, num_film_params), so the generator's own checks and
   the shape check after it never fail.
   */
  lemma ConditioningAccepted(batchSize: nat, conditioning: Option<seq<seq<real>>>, conditioningDim: Option<nat>,
                             numFilmParams: Option<nat>, net: seq<real> -> seq<real>)
    requires numFilmParams.Some? ==> forall v :: |net(v)| == 2 * numFilmParams.value
    ensures var r := ConditionedFilm(batchSize, conditioning, conditioningDim, numFilmParams, net);
            r.Ok? <==> ConditioningValid(batchSize, conditioning, conditioningDim) && (conditioning.Some? ==> numFilmParams.Some?)
    ensures var r := ConditionedFilm(batchSize, conditioning, conditioningDim, numFilmParams, net);
            r.Ok? ==> (r.value.Some? <==> conditioning.Some?)
    ensures var r := ConditionedFilm(batchSize, conditioning, conditioningDim, numFilmParams, net);
            r.Ok? && r.value.Some? ==> FilmShaped(r.value.value, batchSize, numFilmParams.value)
    ensures var r := ConditionedFilm(batchSize, conditioning, conditioningDim, numFilmParams, net);
            ConditioningValid(batchSize, conditioning, conditioningDim) && conditioning.Some? && numFilmParams.None? ==>
              r.Err? && r.error.AttributeError?
  {
    var r := ConditionedFilm(batchSize, conditioning, conditioningDim, numFilmParams, net);
    if !ConditioningValid(batchSize, conditioning, conditioningDim) {
      assert r.Err?;
    } else if conditioning.None? {
      assert r == Ok(None);
    } else if numFilmParams.None? {
      assert r.Err?;
    } else {
      var x := conditioning.value;
      var f := FilmForward(x, conditioningDim.value, numFilmParams.value, net);
      assert HasWidth(x, conditioningDim.value);
      assert f.Ok?;
      assert r == Ok(Some(f.value));
      assert FilmShaped(f.value, batchSize, numFilmParams.value);
    }
  }

  // ---------------------------------------------------------------------
  // TransformerEncoder1D

  /** `encoder_input_dim`: the conditioning dimension when there is one, otherwise the channel count. */
  function EncoderInputDim(inputShape: seq<nat>, conditioningDim: Option<nat>): Result<nat> {
    var _ :- Need(|inputShape| == 2, ValueError(InputShapeUnpackMessage));
    Ok(if conditioningDim.Some? then conditioningDim.value else inputShape[0])
  }

  /**
   The shape `TransformerEncoder1D.forward` hands to its encoder: the
   repeated conditioning (batch, seq_len, conditioning_dim) when
   conditioning is given, otherwise x permuted to (batch, seq_len,
   n_channels). Each shape check on the way is modelled.
   */
  function EncoderInputShape(xShape: seq<nat>, conditioning: Option<seq<nat>>, inputShape: seq<nat>, conditioningDim: Option<nat>)
    : (r: Result<seq<nat>>)
  {
    var _ :- Need(|xShape| >= 1, IndexError("x.shape[0]"));
    var batchSize := xShape[0];
    var _ :- Need(|inputShape| == 2, ValueError(InputShapeUnpackMessage));
    var nChannels, seqLen := inputShape[0], inputShape[1];
    var _ :- Check(xShape == [batchSize, nChannels, seqLen], XShapeMessage);
    var _ :- Check((conditioning.Some? && conditioningDim.Some?) || (conditioning.None? && conditioningDim.None?),
                   ConditioningPairMessage);
    if conditioning.Some? then
      var _ :- Check(conditioning.value == [batchSize, conditioningDim.value], ConditioningShapeMessage);
      Ok([batchSize, seqLen, conditioningDim.value])
    else
      Ok([batchSize, seqLen, nChannels])
  }

  /**
   Whenever the forward pass reaches the encoder, its input has shape
   (batch, seq_len, encoder_input_dim), so the encoder's own shape check
   never fails; and the pass reaches it exactly when x has the declared
   shape and conditioning agrees with its declared dimension.
   */
  lemma EncoderInputMatches(xShape: seq<nat>, conditioning: Option<seq<nat>>, inputShape: seq<nat>, conditioningDim: Option<nat>)
    ensures var r := EncoderInputShape(xShape, conditioning, inputShape, conditioningDim);
            r.Ok? ==> && EncoderInputDim(inputShape, conditioningDim).Ok?
                      && r.value == [xShape[0], inputShape[1], EncoderInputDim(inputShape, conditioningDim).value]
    ensures EncoderInputShape(xShape, conditioning, inputShape, conditioningDim).Ok? <==>
              && |inputShape| == 2 && |xShape| == 3
              && xShape[1] == inputShape[0] && xShape[2] == inputShape[1]
              && (conditioning.Some? <==> conditioningDim.Some?)
              && (conditioning.Some? ==> conditioning.value == [xShape[0], conditioningDim.value])
  {
  }
}
