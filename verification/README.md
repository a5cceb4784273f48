# nerf_grasping core, modelled in Dafny

This project models the self-contained, pure parts of the nerf_grasping grasp-learning code base. All arithmetic is over exact reals. Every Python assertion and raise is an `Err` of a `Result` (module `Outcome`), tagged with the exception class Python would raise.

| module | file | what it models |
|---|---|---|
| `Compositing` | compositing.dfy | ray compositing: the shifted cumulative product of 1 − α, and the first-hit weights it yields (`compute_weight`) |
| `DensityPreprocess` | density.dfy | `preprocess_to_weight` over the density grid, and DENSITY/WEIGHT selection in `preprocess_nerf_grid_inputs` |
| `NerfGrid` | nerf_grid.dfy | the 83 × 21 × 37 grid, its left and right halves (the right one flipped in x and y), and the masked swap of halves |
| `GlobalFrames` | global_frames.dfy | `get_global_params`: the frame origin at grid index (0, 10, 18), the per-example frames, and the reflection about the xz plane |
| `Invariance` | invariance.dfy | `invariance_transformation` as written, which raises inside `transform`, and corrected: its rotations about z and y with their `isclose` checks, reflection, y-axis removal, and the way its result is unpacked |
| `GridPipeline` | grid_pipeline.dfy | `preprocess_nerf_grid_inputs` end to end: split, flip, density preprocessing, invariance and assembly |
| `Training` | training.dfy | the epoch schedule predicate, checkpoint naming (`checkpoint_{epoch:04}.pt`) and `load_checkpoint` |
| `ObjMesh` | obj_mesh.dfy | the OBJ `v`/`f` reader in `create_plotly_mesh` |
| `Layers` | layers.dfy | `mlp`, `conv_encoder`, `FiLMGenerator.forward` and the conditioning checks, with layers as descriptors |
| `Trajectory` | trajectory.dfy | `matrix_to_quat_wxyz`'s shape check, the joint-limit check on start configurations, finite-difference velocities without trajectory optimisation, and `compute_over_limit_factors` |
| `NerfDataset` | nerf_dataset.dfy | ring-camera bookkeeping, `create_train_val_test_split`, the pose record written and read back, and frame-path trimming |
| `GraspConfigs` | grasp_config.dfy | the shape-checked setters and constructors of the hand and grasp configurations, their `as_tensor` layouts, and `batch_cov` |
| `DepthRender` | depth_render.dfy | chunked rendering of a camera's ray bundle, and clipped expected depth and variance for one bundle |
| `Urdf` | urdf.dfy | `parse_object_code_and_scale`, `create_urdf` and the export layout of `nerf_to_urdf` |
| `GraspDecode` | grasp_decode.dfy | decoding the 37-wide grasp vector into a world-frame hand pose and finger orientations |
| `Rigid` | rigid.dfy | 4 × 4 homogeneous transforms and their composition |
| `Strings`, `Paths`, `PyArith`, `RealSeqs` | strings.dfy, paths.dfy, py_arith.dfy, real_seqs.dfy | the Python, `os.path` and `pathlib` behaviour the core relies on: string order, `split`, `int`, `rfind`, `os.path.join`, `splitext`, `/` and `.parent`, `%` and `int()` truncation, plus sums, products, minima and maxima of real sequences |

Operations the code takes from libraries are passed in as function parameters. These are `exp`, `normalize`, quaternion-to-matrix conversion, the rotations of `invariance_transformation`, `float` parsing and printing, and the median renderer. Random masks and permutations are passed in as inputs. Where a contract depends on such a parameter, it states only what the parameter is assumed to satisfy, for example "returns 3 × 3 matrices" or "reads plain decimals as their value".

## Model

| member | source | states |
|---|---|---|
| Compositing.CumProd | Train_NeRF_Grasp_Metric.py:491-492 | entry i of `cumprod` is the product of the factors 0 through i |
| Compositing.Transmittance | Train_NeRF_Grasp_Metric.py:494-505 | the shifted cumulative product keeps the length and starts with 1 |
| Compositing.TransmittanceAt | Train_NeRF_Grasp_Metric.py:494-505 | entry j of the shifted product is ∏_{i<j}(1 − α_i): the last factor is dropped |
| Compositing.WeightAt | Train_NeRF_Grasp_Metric.py:484-509 | weight_j = α_j · ∏_{i<j}(1 − α_i) |
| Compositing.ComputeWeightIsFirstHit | Train_NeRF_Grasp_Metric.py:484-509 | the cumulative-product computation equals an independent segment-by-segment first-collision recursion |
| Compositing.FirstHit | Train_NeRF_Grasp_Metric.py:484-487 | reference definition: weight j is the probability that a ray passing samples 0 … j − 1 without a hit stops at sample j |
| Compositing.HitClosedForm | Train_NeRF_Grasp_Metric.py:484-508 | that probability is α_j times the product of 1 − α_i over the samples before j |
| Compositing.FirstHitSum | Train_NeRF_Grasp_Metric.py:484-487 | the first-hit probabilities add up to one minus the probability of passing every sample |
| Compositing.WeightsAreProbabilities | Train_NeRF_Grasp_Metric.py:484-487 | with every α in [0, 1] every weight is in [0, 1] |
| Compositing.WeightsSum | Train_NeRF_Grasp_Metric.py:484-487 | the weights of a ray sum to 1 − ∏_i(1 − α_i) |
| Compositing.WeightsSumAtMostOne | Train_NeRF_Grasp_Metric.py:484-487 | with every α in [0, 1] the weights sum to a value in [0, 1]: they are first-collision probabilities |
| DensityPreprocess.AlphaIsProbability | Train_NeRF_Grasp_Metric.py:465-470 | for a nonnegative density, α = 1 − exp(−Δσ) lies in [0, 1) whenever exp maps nonpositive reals into (0, 1] |
| DensityPreprocess.WeightGridRay | Train_NeRF_Grasp_Metric.py:490-518 | the weight is computed along x (dimension −3): every x-ray of the result is the compositing weight of that ray of α |
| DensityPreprocess.WeightGridProbabilities | Train_NeRF_Grasp_Metric.py:484-487 | a grid of probabilities gives weights in [0, 1] whose every ray sums to at most 1 |
| DensityPreprocess.PreprocessToWeightAsWritten | Train_NeRF_Grasp_Metric.py:511-520 | succeeds exactly on grids of shape (83, 21, 37), otherwise AssertionError; on success every grid is replaced by its weights |
| DensityPreprocess.WeightAsWrittenRejectsHalves | Train_NeRF_Grasp_Metric.py:810-817 | the 41-wide halves always fail the shape assertion (the assertion is at line 511 and the halves are cut at lines 771-776) |
| DensityPreprocess.PreprocessToWeight | Train_NeRF_Grasp_Metric.py:483-520 | corrected: accepts 41- and 83-wide grids, with the same weights |
| DensityPreprocess.PreprocessToWeightProbabilities | Train_NeRF_Grasp_Metric.py:484-487 | for nonnegative densities every produced weight is in [0, 1] and every ray sums to at most 1 |
| DensityPreprocess.PreprocessDensities | Train_NeRF_Grasp_Metric.py:810-817 | with the corrected weight function: fails only for WEIGHT on a wrong shape, and keeps the batch shape |
| NerfGrid.LeftHalf | Train_NeRF_Grasp_Metric.py:769-773 | a (4, 83, 21, 37) example gives a (4, 41, 21, 37) half |
| NerfGrid.RightHalf | Train_NeRF_Grasp_Metric.py:774-776 | a (4, 83, 21, 37) example gives a (4, 41, 21, 37) half |
| NerfGrid.LeftHalfAt | Train_NeRF_Grasp_Metric.py:773 | left[c][i][j][k] = in[c][i][j][k] |
| NerfGrid.RightHalfAt | Train_NeRF_Grasp_Metric.py:774-776 | right[c][i][j][k] = in[c][82 − i][20 − j][k] |
| NerfGrid.ReverseReverse | Train_NeRF_Grasp_Metric.py:774-776 | flipping an axis twice restores it |
| NerfGrid.HalvesIgnoreMiddleSlice | Train_NeRF_Grasp_Metric.py:771-776 | x-slice 41 belongs to neither half: inputs that differ only there have the same halves |
| NerfGrid.SwapWhereInvolution | Train_NeRF_Grasp_Metric.py:786-803 | swapping twice under the same mask restores both sides |
| NerfGrid.SwapWherePreservesPairs | Train_NeRF_Grasp_Metric.py:786-803 | at every position the pair of values is kept, possibly reordered |
| GlobalFrames.GetGlobalParams | Train_NeRF_Grasp_Metric.py:568-610 | fails unless the points have shape (B, 3, 41 or 83, 21, 37) and, per example, normalize(x) × normalize(y) is close to normalize(z); on success three (B, 3) tensors |
| GlobalFrames.GlobalParamsAt | Train_NeRF_Grasp_Metric.py:580-597 | the origin is the point at grid index (0, 10, 18); the axes are the normalised offsets to its x and y neighbours |
| GlobalFrames.TranslateExampleFrame | Train_NeRF_Grasp_Metric.py:586-603 | translating a grid moves its origin by the vector and keeps its three offsets |
| GlobalFrames.GlobalParamsTranslate | Train_NeRF_Grasp_Metric.py:568-610 | the frame is translation-covariant: origins move by the vector and both axes stay the same |
| GlobalFrames.ReflectWhereInvolution | Train_NeRF_Grasp_Metric.py:717-737 | reflecting twice under the same mask is the identity |
| GlobalFrames.CatRowAt | Train_NeRF_Grasp_Metric.py:833-834 | entry 3t + c of a concatenated row is coordinate c of tuple element t |
| GlobalFrames.Cat | Train_NeRF_Grasp_Metric.py:833-834 | `torch.cat(params, dim=1)` gives one row of 3·|params| values per batch element |
| Invariance.ReflectAllInvolution | Train_NeRF_Grasp_Metric.py:717-737 | reflecting all six vectors twice with the same mask gives them back |
| Invariance.CheckShapes | Train_NeRF_Grasp_Metric.py:626-639 | succeeds exactly when each side unpacks into three vectors and all six have shape (B, 3) with B from the left origin; a side without three vectors is a ValueError, a shape mismatch an AssertionError |
| Invariance.InvarianceTransformationAsWritten | Train_NeRF_Grasp_Metric.py:619-665 | the function as written raises on every input, before any vector is rotated |
| Invariance.AsWrittenFailsInTransform | Train_NeRF_Grasp_Metric.py:626-665 | ill-shaped frames give the unpack or shape error; well-shaped frames give ValueError from `torch.tensor` over B-element entries unless B = 1, and RuntimeError from `torch.cat` of a (1, 3) point with a 1-D tensor when B = 1 |
| Invariance.ReturnedTuple | Train_NeRF_Grasp_Metric.py:739-748 | the final `return` builds origin and x axis of each side (4 vectors) with `remove_y_axis`, else the left three followed by the right three |
| Invariance.UnpackPair | Train_NeRF_Grasp_Metric.py:820-827 | Python's two-name unpack succeeds exactly on two values, otherwise ValueError |
| Invariance.ReturnedTupleNeverUnpacks | Train_NeRF_Grasp_Metric.py:820-827 | even were `transform` repaired, the caller's two-name unpack of the returned tuple (lines 739-748) would raise ValueError, too many values |
| Invariance.InvarianceTransformation | Train_NeRF_Grasp_Metric.py:619-748 | corrected: ValueError when a side does not unpack into three vectors, AssertionError on a shape or `isclose` failure; on success the left and right tuples separately, of 2 vectors each with `remove_y_axis`, else 3, all of batch size B |
| Invariance.CorrectedSucceedsIff | Train_NeRF_Grasp_Metric.py:626-748 | corrected: succeeds exactly when the shapes hold and the rotated left origins pass the `isclose` assertions of lines 675-677 and, with `rotate_polar_angle`, 707-709; the result is the vectors rotated about z, then about y when asked, then reflected, cut to origin and x axis with `remove_y_axis` |
| Invariance.CorrectedSplitsFlatTuple | Train_NeRF_Grasp_Metric.py:739-748 | corrected: the left tuple followed by the right one is exactly the flat tuple the `return` builds from the transformed vectors |
| Invariance.ExactRotationsSucceed | Train_NeRF_Grasp_Metric.py:641-709 | when the rotation about z puts every origin in the xz plane and the one about y brings it to z = 0, both `isclose` assertions hold and the corrected transformation succeeds on every well-shaped input |
| Invariance.ReflectionOnly | Train_NeRF_Grasp_Metric.py:717-737 | with identity rotations and left origins already in the xz plane, reflected items have every vector's y negated and the others are unchanged |
| Invariance.RemoveYAxisKeepsOriginAndX | Train_NeRF_Grasp_Metric.py:738-740 | removing the y axes keeps each side's origin and x axis, in order |
| GridPipeline.DensitiesAndPoints | Train_NeRF_Grasp_Metric.py:538-556 | succeeds exactly on (B, 4, 41 or 83, 21, 37) inputs and returns channel 3 and channels 0–2 |
| GridPipeline.SplitBatch | Train_NeRF_Grasp_Metric.py:769-776 | every example is split into its left and right half; an 83-wide batch gives two 41-wide ones |
| GridPipeline.FlipSidesKeeps | Train_NeRF_Grasp_Metric.py:786-803 | the flip only moves whole examples between sides, so any property of all of them is kept |
| GridPipeline.FlipExchangesHalves | Train_NeRF_Grasp_Metric.py:786-803 | densities and points are swapped together: a flipped example has both of the other side's parts, an unflipped one keeps its own |
| GridPipeline.SplitFlipFrames | Train_NeRF_Grasp_Metric.py:761-807 | the shared steps succeed exactly on an (B, 4, 83, 21, 37) batch whose both flipped halves pass `get_global_params`, and return their densities and frames |
| GridPipeline.Assemble | Train_NeRF_Grasp_Metric.py:830-839 | succeeds exactly when both tuples have the same length and every tensor has batch size B; each row is the concatenation of the vectors |
| GridPipeline.InvarianceStepAsWritten | Train_NeRF_Grasp_Metric.py:819-827 | off: the frames pass through; on: the step always fails, with the error raised inside `invariance_transformation` |
| GridPipeline.AsWrittenWeightAlwaysFails | Train_NeRF_Grasp_Metric.py:810-817 | `preprocess_nerf_grid_inputs` with WEIGHT fails on every input |
| GridPipeline.AsWrittenInvarianceAlwaysFails | Train_NeRF_Grasp_Metric.py:819-827 | with `add_invariance_transformations` the pipeline fails on every input |
| GridPipeline.CorrectedAgreesOffDefects | Train_NeRF_Grasp_Metric.py:752-839 | off the two defective paths the corrected pipeline computes exactly what the original does |
| GridPipeline.InvarianceStepSucceeds | Train_NeRF_Grasp_Metric.py:819-827 | on well-shaped frames whose left origins pass the `isclose` checks, the corrected step succeeds with 2 or 3 vectors per side |
| GridPipeline.AssembleWidths | Train_NeRF_Grasp_Metric.py:830-834 | every assembled row has three values per vector |
| GridPipeline.FinishSucceeds | Train_NeRF_Grasp_Metric.py:810-839 | after the shared steps, and with the `isclose` checks passing when the invariance step is on, the corrected pipeline succeeds: 41-wide densities and rows of width 9, or 6 without y axes |
| GridPipeline.FinishOkIff | Train_NeRF_Grasp_Metric.py:810-839 | on halves that passed the shared steps, the corrected remaining steps fail exactly when the invariance step is on and an `isclose` check fails |
| GridPipeline.CorrectedSucceeds | Train_NeRF_Grasp_Metric.py:752-839 | the corrected pipeline fails exactly when the input shape, a frame check or, with the invariance step on, an `isclose` check fails |
| GridPipeline.DensitiesWithoutFlip | Train_NeRF_Grasp_Metric.py:769-817 | with DENSITY and no flip, left density (i, j, k) is input density (i, j, k) and right density (i, j, k) is input density (82 − i, 20 − j, k) |
| Training.Scheduled | Train_NeRF_Grasp_Metric.py:2642-2643 | the schedule is defined for every nonzero frequency; a zero frequency raises ZeroDivisionError |
| Training.ScheduledAtMultiples | Train_NeRF_Grasp_Metric.py:2642-2643 | the action runs at every positive multiple of the frequency, and at epoch 0 exactly when the flag is set |
| Training.NotScheduledBetween | Train_NeRF_Grasp_Metric.py:2642-2643 | between multiples of a positive frequency it never runs |
| Training.RunCountClosedForm | Train_NeRF_Grasp_Metric.py:2642-2643 | over epochs 0 … n − 1 it runs ⌊(n − 1)/freq⌋ times, plus one when the flag is set |
| Training.CheckpointName | Train_NeRF_Grasp_Metric.py:2321-2323 | the name starts `checkpoint_` and ends `.pt`, 18 characters long below epoch 10000 |
| Training.CheckpointNameOrder | Train_NeRF_Grasp_Metric.py:2321-2323 | below 10000 the zero-padded names sort in epoch order, both directions |
| Training.JoinPathOrder | Train_NeRF_Grasp_Metric.py:268-274 | paths joined onto the same folder sort as their file names do |
| Training.ParseCheckpointNameRoundTrip | Train_NeRF_Grasp_Metric.py:2321-2323 | every saved name reads back as its epoch, however large |
| Training.PtNames | Train_NeRF_Grasp_Metric.py:269-275 | keeps exactly the listed names ending in `.pt` |
| Training.LoadCheckpoint | Train_NeRF_Grasp_Metric.py:268-279 | None exactly when no `.pt` file is listed; otherwise a listed `.pt` path not below any other in string order |
| Training.LoadCheckpointPicksHighestEpoch | Train_NeRF_Grasp_Metric.py:268-279 | while all epochs are below 10000 loading resumes from the highest epoch (names as saved at lines 2321-2323) |
| Training.LoadCheckpointOfTwo | Train_NeRF_Grasp_Metric.py:268-279 | of two `.pt` files, loading picks the one greater in string order |
| Training.Name10000Before9999 | Train_NeRF_Grasp_Metric.py:2321-2323 | the name of epoch 10000 sorts before that of epoch 9999 |
| Training.LoadCheckpointPrefers9999Over10000 | Train_NeRF_Grasp_Metric.py:268-279 | with checkpoints 9999 and 10000 saved, loading resumes from 9999 (names as saved at lines 2321-2323) |
| Training.LatestByEpoch | Train_NeRF_Grasp_Metric.py:268-279 | None exactly when no name parses; otherwise a listed name whose epoch is the highest |
| Training.LoadCheckpointByEpoch | Train_NeRF_Grasp_Metric.py:268-279 | corrected loading, choosing by epoch number: None exactly when no checkpoint is listed |
| Training.LoadCheckpointByEpochPicksHighest | Train_NeRF_Grasp_Metric.py:268-279 | resumes from the highest epoch for every epoch count (names as saved at lines 2321-2323) |
| Training.LoadingAgreesBelow10000 | Train_NeRF_Grasp_Metric.py:268-279 | below epoch 10000 both ways of loading resume from the same file |
| ObjMesh.ScaledFloats | Train_NeRF_Grasp_Metric.py:1214 | succeeds exactly when every token parses as a float (else ValueError); entry i is the parsed token times the scale |
| ObjMesh.FaceIndices | Train_NeRF_Grasp_Metric.py:1217 | succeeds exactly when every token has an integer before its first `/`; entry i is that integer minus 1 |
| ObjMesh.Rows | Train_NeRF_Grasp_Metric.py:1210-1218 | on success there is one vertex per `v ` line and one face per `f ` line |
| ObjMesh.OtherLinesIgnored | Train_NeRF_Grasp_Metric.py:1212-1218 | a line starting with neither `v ` nor `f ` changes nothing |
| ObjMesh.NormalsAndTexturesAreNotVertices | Train_NeRF_Grasp_Metric.py:1213-1216 | `vn` and `vt` lines are neither vertex nor face lines |
| ObjMesh.FaceIndexBeforeSlash | Train_NeRF_Grasp_Metric.py:1217 | a face token `i/…` names vertex i − 1, whatever follows the slash |
| ObjMesh.Translate | Train_NeRF_Grasp_Metric.py:1227 | every vertex coordinate is moved by the offset's coordinate |
| ObjMesh.ToArray | Train_NeRF_Grasp_Metric.py:1221-1222 | `np.array` succeeds exactly on rows of one length and raises ValueError on ragged rows |
| ObjMesh.ParseObj | Train_NeRF_Grasp_Metric.py:1201-1227 | succeeds exactly when every line converts, both arrays have shape (n, 3) with n > 0 and the offset has three entries; ragged rows in either list raise ValueError before either shape assertion, which otherwise raises AssertionError; on success one vertex per `v ` line, each its parsed coordinates times `scale` plus the offset (zero by default), and one face per `f ` line, as parsed |
| ObjMesh.VertexLineReadsBack | Train_NeRF_Grasp_Metric.py:1213-1215 | a written `v x y z` line is a vertex line that reads back as its vertex |
| ObjMesh.FaceLineReadsBack | Train_NeRF_Grasp_Metric.py:1216-1218 | a written `f a b c` line with 1-based indices reads back as its 0-based face |
| ObjMesh.RowsOfWritten | Train_NeRF_Grasp_Metric.py:1210-1218 | vertex lines followed by face lines parse to the vertices and the faces |
| ObjMesh.ParseWriteObj | Train_NeRF_Grasp_Metric.py:1201-1227 | writing a mesh and parsing it with unit scale and the default offset gives the mesh back |
| Layers.FeedAppend | tyler_new_models.py:38-39 | running an input through two layer lists in sequence is running it through their concatenation, and a rejection anywhere is a rejection |
| Layers.LayerSizes | tyler_new_models.py:35 | the sizes are the input count, the hidden sizes, then the output count |
| Layers.MlpLayers | tyler_new_models.py:34-39 | two layers per consecutive pair of sizes |
| Layers.MlpLayerAt | tyler_new_models.py:36-38 | pair i is Linear(sizes[i], sizes[i+1]) followed by `activation`, except the last, followed by `output_activation` |
| Layers.MlpChains | tyler_new_models.py:35-39 | the MLP accepts `num_inputs` features and produces `num_outputs` |
| Layers.Mlp | tyler_new_models.py:27-39 | the source's loop builds exactly the pairwise layer list |
| Layers.Blocks | tyler_new_models.py:131-146 | one block per `conv_channels` entry, each of 3 layers, or 4 with dropout |
| Layers.BlockAt | tyler_new_models.py:132-146 | block i is conv(in_i, channels[i]), activation, pool(2, 2), then dropout when the probability is not zero, with in_0 = input_shape[0] and in_{i+1} = channels[i] |
| Layers.BlocksChain | tyler_new_models.py:132-144 | the channel counts chain: the blocks accept input_shape[0] channels and hand on the last entry |
| Layers.BlocksCounts | tyler_new_models.py:133-146 | one convolution per entry, and one dropout per block exactly when the probability is not zero |
| Layers.ConvEncoderAsWritten | tyler_new_models.py:77-178 | builds exactly when 2 ≤ len(input_shape) ≤ 4, the pool type is valid, there are 2 or 3 spatial dimensions and the output mode is known; a bad rank is AssertionError, a bad pool type ValueError, one spatial dimension KeyError (the missing dropout entry), and an unknown `conv_output_to_1d` ValueError (line 176) |
| Layers.AsWrittenRejects1D | tyler_new_models.py:104-128 | one spatial dimension always fails with KeyError 1, whatever the dropout probability |
| Layers.ConvEncoder1DNonResnetFails | tyler_new_models.py:364-371 | so the non-ResNet `ConvEncoder1D` configuration never builds |
| Layers.AsWrittenAvgPoolIsMaxPool | tyler_new_models.py:151-158 | asking for average spatial pooling builds exactly the max-pooling encoder (the map is filled at lines 114-118) |
| Layers.ConvEncoder | tyler_new_models.py:77-178 | corrected: the dropout lookup happens only when the probability is not zero, so 1-D inputs build without dropout; a bad rank is AssertionError, a bad pool type ValueError, 1-D with dropout KeyError, and an unknown `conv_output_to_1d` ValueError (line 176) |
| Layers.Corrected1DBuilds | tyler_new_models.py:364-371 | the corrected builder accepts the `ConvEncoder1D` configuration, with four convolutions and no dropout |
| Layers.CorrectedAvgPoolAverages | tyler_new_models.py:151-158 | corrected, average spatial pooling installs an adaptive average pool just before the flatten |
| Layers.CorrectedAgreesOffDefects | tyler_new_models.py:77-178 | away from 1-D inputs and average spatial pooling, the corrected builder equals the original |
| Layers.EncoderLayout | tyler_new_models.py:130-176 | a built encoder is the blocks followed by one or two output layers, the last a flatten from dimension 1 |
| Layers.FilmForward | tyler_new_models.py:198-209 | succeeds exactly on a (batch, film_input_dim) input, else AssertionError; β and γ both have shape (batch, n) |
| Layers.FilmAt | tyler_new_models.py:204-206 | β is the first n outputs of the MLP and γ the last n plus one |
| Layers.FilmRecoversOutput | tyler_new_models.py:204-206 | β followed by γ − 1 is the MLP's output row: the split loses nothing |
| Layers.FilmZeroIsIdentity | tyler_new_models.py:203-206 | an all-zero MLP output gives β = 0 and γ = 1 |
| Layers.ConditioningAccepted | tyler_new_models.py:278-292 | accepted exactly when conditioning and its dimension are both absent, or both present with shape (batch, dim) and a FiLM generator exists (conditioning without one is an AttributeError); FiLM parameters exist exactly when conditioning is given, with shape (batch, num_film_params) |
| Layers.EncoderInputMatches | tyler_new_models.py:555-593 | the encoder input reached by the forward pass has width `encoder_input_dim` (the conditioning dimension when present, else n_channels), and the pass reaches it exactly when x and conditioning have their declared shapes (`encoder_input_dim` is defined at lines 644-651) |
| Trajectory.QuatShape | nerf_grasping/curobo_fr3_algr_zed2i/trajopt_batch.py:57-68 | accepted exactly when the last two dimensions are 3 × 3, otherwise ValueError (IndexError for a missing dimension); the result replaces them by one dimension of 4 |
| Trajectory.CheckStartConfigs | nerf_grasping/curobo_fr3_algr_zed2i/trajopt_batch.py:523-564 | accepted configurations keep their shape; one within limits is returned unchanged, and any other accepted one lies strictly within eps of the limits and becomes `torch.clamp(q, lo + eps, hi - eps)` entrywise (lines 549-561) |
| Trajectory.StartConfigsRejectIff | nerf_grasping/curobo_fr3_algr_zed2i/trajopt_batch.py:527-564 | the check raises exactly when some entry lies at least eps outside its limits, and then it is ValueError |
| Trajectory.StartConfigsEndWithinLimits | nerf_grasping/curobo_fr3_algr_zed2i/trajopt_batch.py:549-561 | when every joint's range is at least 2 eps wide, whatever the check lets through, unchanged or clamped, lies within the limits |
| Trajectory.ClampedKeepsMargin | nerf_grasping/curobo_fr3_algr_zed2i/trajopt_batch.py:549-561 | when every joint's range is at least 2 eps wide, a clamped configuration lies in [lo + eps, hi - eps]: entries below lo + eps become lo + eps, entries above hi - eps become hi - eps, and the rest are kept |
| Trajectory.StartConfigsIdempotent | nerf_grasping/curobo_fr3_algr_zed2i/trajopt_batch.py:523-564 | when every joint's range is at least 2 eps wide, checking an already checked configuration changes nothing |
| Trajectory.Diff | nerf_grasping/curobo_fr3_algr_zed2i/trajopt_batch.py:639 | `np.diff` has one row fewer than its input and the same width |
| Trajectory.NoTrajoptVelocities | nerf_grasping/curobo_fr3_algr_zed2i/trajopt_batch.py:626-641 | on success qd has q's shape, q has at least two rows, and dt · n is the desired trajectory time |
| Trajectory.SingleWaypointFails | nerf_grasping/curobo_fr3_algr_zed2i/trajopt_batch.py:639-641 | with one waypoint the final shape assertion always fails |
| Trajectory.VelocitiesStep | nerf_grasping/curobo_fr3_algr_zed2i/trajopt_batch.py:637-640 | q[i+1] = q[i] + dt · qd[i] for every i < n − 1, and the last velocity repeats the one before |
| Trajectory.VelocitiesIntegrate | nerf_grasping/curobo_fr3_algr_zed2i/trajopt_batch.py:637-640 | every waypoint is the first plus dt times the running sum of the velocities before it |
| Trajectory.UnderScale | nerf_grasping/curobo_fr3_algr_zed2i/trajopt_batch.py:708-712 | a joint's under-scale is at least 1, and above 1 exactly when its least velocity is below the lower limit |
| Trajectory.OverScale | nerf_grasping/curobo_fr3_algr_zed2i/trajopt_batch.py:713-717 | a joint's over-scale is at least 1, and above 1 exactly when its greatest velocity is above the upper limit |
| Trajectory.OverLimitFactor | nerf_grasping/curobo_fr3_algr_zed2i/trajopt_batch.py:700-747 | the rescale factor of a trajectory is at least 1 |
| Trajectory.FactorExceedsOneIff | nerf_grasping/curobo_fr3_algr_zed2i/trajopt_batch.py:708-747 | the factor exceeds 1 exactly when some velocity lies outside its joint's limits |
| Trajectory.JointRescaled | nerf_grasping/curobo_fr3_algr_zed2i/trajopt_batch.py:739-747 | a value between a joint's least and greatest velocity, divided by any factor at least both overshoots, lies within the limits |
| Trajectory.RescaledWithinLimits | nerf_grasping/curobo_fr3_algr_zed2i/trajopt_batch.py:739-747 | dividing every velocity by the factor puts it within its joint's limits |
| Trajectory.ComputeOverLimitFactors | nerf_grasping/curobo_fr3_algr_zed2i/trajopt_batch.py:654-750 | on success the limits are signed (min < 0 < max), every trajectory is 23 wide with at least 3 steps, and factor i is the velocity factor of trajectory i |
| Trajectory.ShortTrajectoryFails | nerf_grasping/curobo_fr3_algr_zed2i/trajopt_batch.py:698-706 | a trajectory of fewer than 3 steps makes the call fail: the minimum of the empty jerk array raises ValueError |
| Trajectory.FactorsIgnoreAccelerationAndJerk | nerf_grasping/curobo_fr3_algr_zed2i/trajopt_batch.py:698-747 | changing the timesteps or the acceleration and jerk limits never changes the result |
| Trajectory.FactorsRescaleIntoLimits | nerf_grasping/curobo_fr3_algr_zed2i/trajopt_batch.py:739-750 | each returned factor is at least 1 and divides its trajectory's velocities into the limits |
| NerfDataset.RingCameras | sim_trifinger.py:240-243 | one camera per position of every ring, as many as the counts add up to, each naming an existing ring and position |
| NerfDataset.RingCameraIndex | sim_trifinger.py:240-243 | camera k of ring r is image number (cameras on earlier rings) + k: the rings are laid out one after another |
| NerfDataset.RingImageCount | sim_trifinger.py:235-243 | the counts [56, 104, 96, 1] give 257 ring images |
| NerfDataset.Sizes | sim_trifinger.py:336-339 | the train, val and test counts add up to the number of images |
| NerfDataset.SizesFit | sim_trifinger.py:337-339 | with nonnegative fractions adding up to at most one, no count is negative |
| NerfDataset.CreateSplit | sim_trifinger.py:346-351 | every index of every split is one of the shuffled indices |
| NerfDataset.SplitConcatenates | sim_trifinger.py:336-351 | train, test and val in that order are exactly the shuffled indices, with the computed counts |
| NerfDataset.SplitPartitions | sim_trifinger.py:346-351 | for a shuffle of 0 … n − 1 the three splits are pairwise disjoint and together hold every image |
| NerfDataset.PoseRecord | sim_trifinger.py:320 | the record has 7 values |
| NerfDataset.ReadLine | sim_trifinger.py:370 | `readline` returns a prefix of the text, all of it when there is no newline |
| NerfDataset.FromString | sim_trifinger.py:371 | `np.fromstring(s, sep=",")` succeeds exactly when every comma-separated token reads as a float, with one value per token |
| NerfDataset.ReadPose | sim_trifinger.py:369-374 | a read pose has a 3-vector position and a 4-vector quaternion |
| NerfDataset.StripBrackets | sim_trifinger.py:370 | `[1:-1]` of the first line of the dumped list removes exactly its brackets (the list is written at line 321) |
| NerfDataset.ParseDumped | sim_trifinger.py:371 | parsing the comma-joined text of a list of floats gives the list back (the text is written at line 321) |
| NerfDataset.PoseRoundTrip | sim_trifinger.py:369-374 | writing a pose record and reading it recovers the position and the quaternion in x, y, z, w order (the record is written at lines 319-321) |
| NerfDataset.StoredQuaternionReorders | sim_trifinger.py:374-375 | the quaternion read back as `pose[-4:]`, which `from_quat` takes as x, y, z, w, is the camera's w, x, y, z quaternion with w moved from first to last, as line 320 writes it |
| NerfDataset.FrameTransform | sim_trifinger.py:373-383 | the frame transform is 4 × 4 with the read position as translation and the rotation of the read quaternion as rotation; it fails only if that rotation is not 3 × 3 |
| NerfDataset.FramePathOfImage | sim_trifinger.py:387-405 | when no folder component is named like the split, the frame path is the split name, `/` and the image number |
| NerfDataset.TrimmedName | sim_trifinger.py:396-405 | the trimmed components join with one separator, and the `.png` extension comes off |
| NerfDataset.TrimmedParts | sim_trifinger.py:391-398 | the first component equal to the split name is found, and the components from there on are the split name and the file name |
| GraspConfigs.SetWristPose | nerf_grasping/optimizer_utils.py:98-102 | accepted exactly when the new pose has the stored (B, 7) shape, else AssertionError; then it replaces the pose and nothing else |
| GraspConfigs.SetJointAngles | nerf_grasping/optimizer_utils.py:104-108 | accepted exactly when the new angles have the stored (B, 16) shape, else AssertionError; then they replace the angles and nothing else |
| GraspConfigs.SetGraspOrientations | nerf_grasping/optimizer_utils.py:382-386 | accepted exactly when the new orientations have the stored (B, F, 4) shape, else AssertionError; then they replace the orientations and nothing else |
| GraspConfigs.SettersIdempotent | nerf_grasping/optimizer_utils.py:98-108 | setting the same value twice is setting it once |
| GraspConfigs.SettersCommute | nerf_grasping/optimizer_utils.py:98-108 | setting the wrist pose and the joint angles gives the same configuration in either order |
| GraspConfigs.NewGraspConfig | nerf_grasping/optimizer_utils.py:183-205 | a fresh configuration has the requested batch size and finger count and valid shapes |
| GraspConfigs.GraspFromValuesHolds | nerf_grasping/optimizer_utils.py:218-244 | `from_values` succeeds exactly on a (B, 16) joint tensor, a (B, 7) wrist pose and (B, F, 4) orientations, else AssertionError, and then holds exactly the given values |
| GraspConfigs.HandFromValues | nerf_grasping/optimizer_utils.py:60-80 | succeeds exactly on a (B, 7) wrist pose and (B, 16) joint angles, else AssertionError, and then holds them |
| GraspConfigs.HandTensor | nerf_grasping/optimizer_utils.py:141-146 | the hand tensor is (B, 23) |
| GraspConfigs.GraspTensor | nerf_grasping/optimizer_utils.py:339-352 | the grasp tensor is (B, F, 27) |
| GraspConfigs.GraspTensorLayout | nerf_grasping/optimizer_utils.py:339-352 | row (b, f) is the wrist pose, the joint angles, then finger f's orientation; its first 23 values are hand row b for every finger (the hand row is built at lines 141-146) |
| GraspConfigs.GraspTensorInjective | nerf_grasping/optimizer_utils.py:339-352 | with at least one finger, two configurations with the same tensor are the same |
| GraspConfigs.BatchCov | nerf_grasping/optimizer_utils.py:540-547 | a (d, d) matrix for every batch size but 1, where 0 / 0 gives NaN |
| GraspConfigs.BatchCovEntry | nerf_grasping/optimizer_utils.py:540-547 | entry (i, j) is Σ_k (x_ki − mean_i)(x_kj − mean_j)/(n − 1) |
| GraspConfigs.BatchCovSymmetric | nerf_grasping/optimizer_utils.py:540-547 | the covariance is symmetric |
| GraspConfigs.BatchCovDiagonalNonneg | nerf_grasping/optimizer_utils.py:540-547 | the diagonal is nonnegative |
| GraspConfigs.BatchCovEmpty | nerf_grasping/optimizer_utils.py:540-547 | an empty batch sums nothing and gives the zero matrix |
| DepthRender.Midpoints | nerf_grasping/nerf_utils.py:169 | one step position per sample, each lying between that sample's start and end |
| DepthRender.NormalizedAt | nerf_grasping/nerf_utils.py:152-173 | the denominator Σw + 1e-7 is positive for nonnegative weights, and each normalised weight is w_k over it |
| DepthRender.NormalizedSumBelowOne | nerf_grasping/nerf_utils.py:152-173 | nonnegative weights normalise to nonnegative weights summing to less than 1 |
| DepthRender.ExpectedDepth | nerf_grasping/nerf_utils.py:174-175 | the expected depth is clipped into [min step, max step] |
| DepthRender.DepthVarianceNonneg | nerf_grasping/nerf_utils.py:181-183 | the depth variance is never negative |
| DepthRender.ZeroWeightsGiveMin | nerf_grasping/nerf_utils.py:172-183 | all-zero weights give exactly the least step as depth, and zero variance |
| DepthRender.StepOfRayInBundle | nerf_grasping/nerf_utils.py:169-175 | every step of every ray of the bundle is among the values `steps.min()` and `steps.max()` range over |
| DepthRender.Bounds | nerf_grasping/nerf_utils.py:175 | the clip range of a bundle with samples is nonempty |
| DepthRender.BoundsContainSteps | nerf_grasping/nerf_utils.py:175 | every step of every ray of the bundle lies in the bundle's clip range |
| DepthRender.RenderBundle | nerf_grasping/nerf_utils.py:145-195 | succeeds exactly when the bundle has samples and the mode is "median" or "expected"; no samples is RuntimeError, another mode ValueError; one depth and one variance per ray, both computed with the whole bundle's clip range |
| DepthRender.RenderBundleBounded | nerf_grasping/nerf_utils.py:172-191 | in "expected" mode every depth lies between the bundle's least and greatest step, and every variance is nonnegative |
| DepthRender.Chunk | nerf_grasping/nerf_utils.py:128-133 | a chunk is the slice from its start of at most the chunk size, cut at the last ray |
| DepthRender.ExtendRendered | nerf_grasping/nerf_utils.py:128-138 | appending the next chunk's outputs extends the rendered prefix by exactly that chunk |
| DepthRender.FailedChunk | nerf_grasping/nerf_utils.py:128-136 | a chunk that fails is the chunk of its first ray, which has no samples or meets an invalid mode |
| DepthRender.RenderCamera | nerf_grasping/nerf_utils.py:116-142 | a zero chunk size raises ValueError, a negative one or no rays RuntimeError; otherwise it succeeds exactly when every chunk has samples and the mode is valid, and then ray j's outputs are those of ray j rendered in its own chunk, in order |
| Urdf.KeywordAt | nerf_grasping/baselines/nerf_to_urdf.py:75-76 | the index of the last `_0_` in the name, and −1 exactly when the name has none |
| Urdf.ObjectCode | nerf_grasping/baselines/nerf_to_urdf.py:77 | with a keyword, the code is the text before the last keyword; without one, the −1 index cuts off only the last character |
| Urdf.ScaleText | nerf_grasping/baselines/nerf_to_urdf.py:79-81 | the scale text handed to `float` holds no underscore |
| Urdf.ParseObjectCodeAndScale | nerf_grasping/baselines/nerf_to_urdf.py:74-83 | succeeds exactly when `float` accepts the scale text, with the object code and that number; otherwise it passes `float`'s error on |
| Urdf.DigitsScale | nerf_grasping/baselines/nerf_to_urdf.py:80-82 | the scale `0.digits` lies in [0, 1), and is positive when some digit is not zero |
| Urdf.ParseDatasetName | nerf_grasping/baselines/nerf_to_urdf.py:74-83 | a name `code_0_digits` parses back to the code and the scale 0.digits, whatever the code holds (names like the one at lines 101-104) |
| Urdf.MissingKeywordKeepsGoing | nerf_grasping/baselines/nerf_to_urdf.py:76-82 | a name without `_0_` is not rejected: its last character is dropped for the code and the whole name, `_` made `.`, is read as the scale |
| Urdf.MissingKeywordExample | nerf_grasping/baselines/nerf_to_urdf.py:74-83 | the name `1_5` parses to code `1_` and scale 1.5 |
| Urdf.ParseObjectCodeAndScaleChecked | nerf_grasping/baselines/nerf_to_urdf.py:74-83 | a name without the keyword is a ValueError; with it, the result is the original parse, whose code is followed by the last keyword |
| Urdf.CheckedParseDatasetName | nerf_grasping/baselines/nerf_to_urdf.py:74-83 | the checked parse reads every dataset name to its code and scale, as the original does (names like the one at lines 101-104) |
| Urdf.UrdfLines | nerf_grasping/baselines/nerf_to_urdf.py:43-65 | the URDF text has 23 lines |
| Urdf.ReadElement | nerf_grasping/baselines/nerf_to_urdf.py:46-61 | cutting a written one-line element at its quotes reads back exactly the attribute names and values it was written with |
| Urdf.ReadMeshLine | nerf_grasping/baselines/nerf_to_urdf.py:52-61 | the mesh element reads back as filename = the obj's name and scale = `1 1 1` |
| Urdf.ReadInertiaLine | nerf_grasping/baselines/nerf_to_urdf.py:47 | the inertia element reads back with the given ixx, iyy, izz and zero products of inertia |
| Urdf.ReadUrdfText | nerf_grasping/baselines/nerf_to_urdf.py:43-65 | splitting the file at newlines gives 23 lines, with the inertia on line 5, the visual block's mesh on line 10 and the collision block's on line 19 |
| Urdf.UrdfLinesSingle | nerf_grasping/baselines/nerf_to_urdf.py:43-65 | for plain attribute values no line of the file holds a newline |
| Urdf.CreateUrdf | nerf_grasping/baselines/nerf_to_urdf.py:29-71 | succeeds exactly when the obj exists, the file name ends in `.urdf` and no file is at the target; otherwise AssertionError; the URDF goes next to the obj and names the obj's file name |
| Urdf.UrdfBesideObj | nerf_grasping/baselines/nerf_to_urdf.py:40-67 | a created URDF shares the obj's folder and carries the requested file name |
| Urdf.MeshScale | nerf_grasping/baselines/nerf_to_urdf.py:120 | without rescaling the factor is 1; with it, the factor times the object scale is 1, and a zero scale is ZeroDivisionError |
| Urdf.LayoutNames | nerf_grasping/baselines/nerf_to_urdf.py:110-132 | `coacd`, `decomposed.obj` and `coacd.urdf` are single path components, the URDF name ends in `.urdf`, and the two files differ |
| Urdf.ExportObject | nerf_grasping/baselines/nerf_to_urdf.py:103-132 | the name is parsed without a keyword check, and a `float` error is passed on; on success the mesh is `<out>/<code>/coacd/decomposed.obj` with the code the slices give, even for a name without `_0_`, and the URDF `coacd.urdf` sits beside it with inertia 0.1 on the diagonal |
| Urdf.ExportObjectChecked | nerf_grasping/baselines/nerf_to_urdf.py:103-132 | corrected: a name without the keyword is a ValueError; a name with it exports exactly as the original does, into the folder of a code that `_0_` follows in the name |
| Urdf.MissingKeywordExportExample | nerf_grasping/baselines/nerf_to_urdf.py:103-120 | as written, the folder name `1_5` is exported to `<out>/1_/coacd/decomposed.obj` with mesh scale 1/1.5 when rescaling; the checked export refuses it |
| Urdf.RescaleDigits | nerf_grasping/baselines/nerf_to_urdf.py:120 | a positive dataset scale is rescaled by its inverse |
| Urdf.CreateInLayout | nerf_grasping/baselines/nerf_to_urdf.py:119-132 | in a folder with no `coacd.urdf`, the URDF of a freshly written mesh can be created and sits in that folder |
| Urdf.ExportOk | nerf_grasping/baselines/nerf_to_urdf.py:103-132 | the export succeeds, with the scale, mesh path and URDF its steps give, whenever the unchecked parse, the rescale and the URDF creation each succeed |
| Urdf.ExportDatasetName | nerf_grasping/baselines/nerf_to_urdf.py:101-132 | a dataset name with a positive scale exports the same way with and without the keyword check, when rescaling with mesh scale the inverse of 0.digits and the URDF in the mesh's folder |
| Paths.Join2 | sim_trifinger.py:387-391 | joining keeps the first path as a prefix and ends in the second, unless the second is absolute, which replaces the first |
| Paths.JoinAll | sim_trifinger.py:396-398 | joining a list of pieces fails exactly when the list is empty |
| Paths.JoinAllPlain | sim_trifinger.py:396-398 | relative pieces without separators join with one `/` between each pair |
| Paths.SplitExt | sim_trifinger.py:403-405 | stem and extension concatenate back to the path, and the extension is empty or a dot followed by no separator |
| Paths.SplitExtOfName | sim_trifinger.py:403-405 | `dir/name.ext` splits into `dir/name` and `.ext` |
| Paths.IndexOf | sim_trifinger.py:397 | the first position holding the item, and ValueError exactly when it is absent |
| Paths.Parts | nerf_grasping/baselines/nerf_to_urdf.py:116-119 | every component pathlib keeps is nonempty, not `.` and holds no separator |
| Paths.Keep | nerf_grasping/baselines/nerf_to_urdf.py:116-119 | pathlib keeps exactly the pieces that are neither empty nor `.` |
| Paths.DivPart | nerf_grasping/baselines/nerf_to_urdf.py:40-67 | appending one component and taking the parent gives back the path, and the name is that component |
| Paths.ParentDivName | nerf_grasping/baselines/nerf_to_urdf.py:40-67 | a path with components is its parent with its name appended |
| Strings.LexTotal | Train_NeRF_Grasp_Metric.py:268-274 | any two distinct file names are ordered one way or the other by `sorted` |
| Strings.LexTransitive | Train_NeRF_Grasp_Metric.py:268-274 | the order `sorted` uses is transitive |
| Strings.LexMax | Train_NeRF_Grasp_Metric.py:268-279 | the last of the sorted names is one of them and no name sorts after it |
| Strings.LexMaxUnique | Train_NeRF_Grasp_Metric.py:268-279 | any name no other sorts after is the last of the sorted names |
| Strings.ValueOfZeroPad | Train_NeRF_Grasp_Metric.py:2321-2323 | an epoch padded with zeros to four places reads back as the epoch |
| Strings.DigitsOrderIsNumeric | Train_NeRF_Grasp_Metric.py:2321-2323 | digit strings of equal length sort as the numbers they denote (which is what `sorted` at lines 268-279 relies on) |
| Strings.ParseInt | Train_NeRF_Grasp_Metric.py:1217 | `int` accepts an optional sign followed by digits, and raises ValueError for anything else |
| Strings.ParseIntText | Train_NeRF_Grasp_Metric.py:1217 | every integer written in decimal is read back by `int` |
| Strings.Words | Train_NeRF_Grasp_Metric.py:1214-1217 | `split()` gives nonempty words without whitespace |
| Strings.WordsOfJoin | Train_NeRF_Grasp_Metric.py:1214-1217 | words joined with single spaces are split back into the same words |
| Strings.BeforeFirst | Train_NeRF_Grasp_Metric.py:1217 | the text before the first `/` is a prefix holding no `/`, and stops at the first one when there is one |
| Strings.SplitOn | Train_NeRF_Grasp_Metric.py:1217 | splitting gives at least one piece and no piece holds the separator |
| Strings.SplitOnJoin | Train_NeRF_Grasp_Metric.py:1217 | pieces without the separator joined with it split back into the same pieces |
| Strings.JoinSplitOn | Train_NeRF_Grasp_Metric.py:1217 | the pieces of a split joined with the separator give back the text |
| Strings.RFind | nerf_grasping/baselines/nerf_to_urdf.py:76 | `rfind` gives −1 or a position where the keyword occurs, and the keyword occurs at no later position |
| GraspDecode.QuatToWxyz | nerf_grasping/dexdiffuser/validate_diffusion.py:153 | indexing by [3, 0, 1, 2] moves the scalar part from last to first |
| GraspDecode.QuatReorderRoundTrip | nerf_grasping/dexdiffuser/validate_diffusion.py:153 | reordering back with [1, 2, 3, 0] recovers the xyzw quaternion |
| GraspDecode.ObjectTransform | nerf_grasping/dexdiffuser/validate_diffusion.py:152-156 | an object state of fewer than seven numbers is an IndexError; otherwise the transform has the state's quaternion as rotation and its first three numbers as translation |
| GraspDecode.SplitGrasp | nerf_grasping/dexdiffuser/validate_diffusion.py:172-181 | succeeds exactly for vectors of width 37, else AssertionError; translation, 6-D rotation, 16 joints and four directions are read from their slices |
| GraspDecode.SplitThenJoin | nerf_grasping/dexdiffuser/validate_diffusion.py:176-181 | splitting a grasp vector and joining the parts gives back the vector |
| GraspDecode.JoinThenSplit | nerf_grasping/dexdiffuser/validate_diffusion.py:176-181 | joining well-shaped parts and splitting the vector gives back the parts |
| GraspDecode.Rot6dMatrixEntries | nerf_grasping/dexdiffuser/validate_diffusion.py:182-183 | the six numbers fill the first two columns row by row; the third column stays zero |
| GraspDecode.Rot6dRoundTrip | nerf_grasping/dexdiffuser/validate_diffusion.py:182-183 | reading the two columns back row by row recovers the six numbers |
| GraspDecode.GramSchmidt | nerf_grasping/dexdiffuser/validate_diffusion.py:184-194 | fails with AssertionError exactly when the two normalised columns have dot product at least 1e-3; otherwise the third column is orthogonal to both |
| GraspDecode.CrossOrthogonal | nerf_grasping/dexdiffuser/validate_diffusion.py:194 | the cross product is orthogonal to both factors |
| GraspDecode.OrientationColumns | nerf_grasping/dexdiffuser/validate_diffusion.py:208-213 | finger f's orientation has the direction as its third column and zeros in the first two |
| GraspDecode.OrientationsRoundTrip | nerf_grasping/dexdiffuser/validate_diffusion.py:208-213 | the third columns of the orientations are the four directions |
| GraspDecode.DecodeGrasp | nerf_grasping/dexdiffuser/validate_diffusion.py:152-201 | a short object state is IndexError, a grasp of the wrong width AssertionError; with a long enough state and a 37-wide grasp, it succeeds exactly when the Gram–Schmidt step of the grasp's 6-D rotation passes the 1e-3 orthogonality assertion (lines 191-193), and fails otherwise with AssertionError; on success the joints are the grasp's slice 9..25 |
| GraspDecode.DecodeGraspInWorld | nerf_grasping/dexdiffuser/validate_diffusion.py:195-201 | the world pose's rotation is the object's rotation times the grasp's, its translation the object's rotation applied to the grasp's plus the object's position (the object transform is built at lines 154-156) |
| Rigid.Homogeneous | nerf_grasping/dexdiffuser/validate_diffusion.py:154-156 | a 4×4 matrix holding the rotation top-left, the translation in the last column and [0, 0, 0, 1] as last row |
| Rigid.HomogeneousParts | nerf_grasping/dexdiffuser/validate_diffusion.py:199-201 | a rigid 4×4 matrix is rebuilt from its rotation and translation |
| Rigid.PartsOfHomogeneous | nerf_grasping/dexdiffuser/validate_diffusion.py:199-201 | the rotation and translation read from a built transform are the ones it was built from |
| Rigid.ComposeHomogeneous | nerf_grasping/dexdiffuser/validate_diffusion.py:199 | the product of two rigid transforms has rotation R1·R2 and translation R1·t2 + t1 |

## Left out

- Reading the HDF5 datasets, `random_split`, data loaders, the training and evaluation loops, and all logging (wandb, plotly, matplotlib, printing): these are I/O and framework glue. The notebook copies in Train_NeRF_Grasp_Metric.py:1507-2030 are duplicates.
- `exp` in `preprocess_to_alpha`: α is an input, and the model starts from it.
- `atan2`, `cos` and `sin` in the rotation of `invariance_transformation`, `normalize` in `get_global_params`, and `quat2mat`: these are parameters, and only the indexing and sign logic around them is modelled.
- `np.linalg.norm` in the Gram–Schmidt step of validate_diffusion.py is a length-preserving parameter. The model keeps the 1e-3 orthogonality assertion and the cross product, but does not prove orthonormality.
- `torch.rand` masks, `np.random.shuffle` and `random.sample` are inputs.
- CuRobo inverse kinematics, forward kinematics and motion planning, loading the robot YAML, and `debug_start_state_invalid`: these are foreign calls. The joint and velocity limits are parameters.
- Trajectory.ComputeOverLimitFactors: the accelerations and jerks matter only through whether an empty minimum raises. Their values, and the finite differences that produce them, are not modelled because they never reach the result.
- Trajectory.CheckStartConfigs: the `q_starts` broadcasting checks of the surrounding function are not modelled; the configuration is one (batch, 23) matrix.
- `_sqrt_positive_part` and the numerics of `matrix_to_quat_wxyz`: only its shape check is modelled.
- The IsaacGym scene, cameras and image writing in sim_trifinger.py: the frame path and pose record are modelled as text, not as files.
- NerfDataset.FromString: `np.fromstring` tolerates some malformed text (it stops early with a warning); the model accepts exactly well-formed tokens.
- nerfstudio cameras, ray sampling and rendering, and the median-depth renderer: the samples are inputs, and the median is a parameter.
- DepthRender.RenderCamera: the final `.view(H, W, -1)` reshape is not modelled; the outputs are flat per-ray sequences.
- pypose `mean`, `Log` and `Exp`, pytorch_kinematics forward kinematics, the diffusion sampler, trimesh and open3d: these are foreign libraries.
- GraspConfigs.BatchCov: the implementation's centred-product computation is the definition; the equivalent formula Σab − qΣa − pΣb + n·p·q is not proved.
- Torch modules themselves: layers are descriptors (kind and sizes). Forward passes are modelled only for FiLM's split and for the shape checks.
- Writing files, `subprocess`, `tyro` and `mkdir` in `nerf_to_urdf.main`, and mesh extraction (`nerf_to_mesh`): the set of existing paths is a parameter, and the URDF text is returned, not written.
- InvarianceTransformation: the corrected version also repairs `transform`, rotating each batch element by its own angles (Findings). The angles come from `atan2`, `cos` and `sin` and are the `Rotations` parameter. Line 683 squares batch rows `left_origin[0]` and `left_origin[1]` where coordinates are meant; the as-written function raises before reaching it, and the corrected version takes the polar angle from each element's own origin.
- CorrectedSplitsFlatTuple: it relates the corrected pair to the tuple the `return` would build, not to the as-written function, which never returns.
- ObjMesh.ToArray: ragged rows raising ValueError is the behaviour of numpy 1.24 and later; older numpy builds an object array instead, and the shape assertion then raises AssertionError.
- Strings.ParseInt: only an optional sign and ASCII digits are accepted; Python's `int` also accepts surrounding whitespace, `_` between digits (`1_0`) and non-ASCII decimal digits, which the model rejects.
- Trajectory.NoTrajoptVelocities: a zero `desired_trajectory_time` makes trajopt_batch.py:637-641 divide by zero into infinite velocities without raising; reals have no infinity, so the model returns Err(NonFinite).
- GraspConfigs.BatchCov: with one sample, optimizer_utils.py:545-547 divides by n − 1 = 0 and returns NaN without raising; the model returns Err(NonFinite).
- Paths.Parts: pathlib's special treatment of a leading `//` is not modelled.
- Urdf.ExportObject: the `mkdir(exist_ok=False)` failure for an existing output folder is not modelled, only the URDF's existence check.
- nerf_grasping/config/optimizer_config.py holds only dataclass defaults and is not part of this model.

## Findings

| source | as written | input that shows it | evidently intended | confidence | as-written member | corrected member |
|---|---|---|---|---|---|---|
| Train_NeRF_Grasp_Metric.py:511, 771-776, 810-817 | `preprocess_to_weight` asserts 83 x-slices, but WEIGHT preprocessing applies it to the 41-slice halves | any input grid with WEIGHT preprocessing | composite each half along x | not executed | DensityPreprocess.WeightAsWrittenRejectsHalves | DensityPreprocess.PreprocessToWeightProbabilities |
| Train_NeRF_Grasp_Metric.py:647-665 | `torch.tensor` builds the 4x4 matrix from (B,)-tensor entries, and `transform` concatenates the (B, 3) point with the 1-D tensor `[1.0]` | any well-shaped frames: B ≠ 1 raises ValueError at line 647, B = 1 raises RuntimeError at line 661 | one rotation per batch element, applied to each of its vectors | not executed | Invariance.AsWrittenFailsInTransform | Invariance.CorrectedSucceedsIff |
| Train_NeRF_Grasp_Metric.py:739-748, 820-827 | `invariance_transformation` returns a flat tuple of 4 or 6 arrays, and the caller unpacks it into two names | any batch, once `transform` is repaired | return the two sides as a pair | not executed | Invariance.ReturnedTupleNeverUnpacks | Invariance.CorrectedSplitsFlatTuple |
| Train_NeRF_Grasp_Metric.py:268-279, 2321-2323 | `load_checkpoint` takes the greatest name in string order | checkpoints for epochs 9999 and 10000 | resume from the highest epoch | not executed | Training.LoadCheckpointPrefers9999Over10000 | Training.LoadCheckpointByEpochPicksHighest |
| tyler_new_models.py:104-108, 128, 364-371 | the dropout class is looked up even when the probability is 0, and the map has no entry for 1-D | `conv_encoder` with input_shape (C, L) | 1-D inputs build, without dropout when the probability is 0 | not executed | Layers.AsWrittenRejects1D | Layers.Corrected1DBuilds |
| tyler_new_models.py:114-118, 151-158 | the "avgpool" map holds the adaptive max-pool classes | AVG_POOL_SPATIAL | an adaptive average pool | not executed | Layers.AsWrittenAvgPoolIsMaxPool | Layers.CorrectedAvgPoolAverages |
| nerf_grasping/baselines/nerf_to_urdf.py:74-83 | `rfind` returns −1 when `_0_` is absent, and the slices go on with it | `1_5` parses to (`1_`, 1.5) and `main` exports it into folder `1_` | reject a name without the keyword | not executed | Urdf.MissingKeywordExportExample | Urdf.ExportObjectChecked |
