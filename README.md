# Gather insertion, the MPI gather layer and the dimension-swap layer

This project models three parts of a multi-GPU fork of Caffe in Dafny:

- **The gather-insertion rewrite** (`InsertGathers` and `ConfigureGatherLayer`).
  It takes a network description (an ordered list of layers, each with a name,
  a type, bottom blob names and top blob names) and a set of serial layer names.
  Before every serial layer whose type is not exempt, it inserts one `MPIGather`
  layer for each nearest non-serial producer of its bottoms, nearest producer
  first. The bottoms that gather feeds are renamed to `gathered_<name>`.
  - Module `InsertGathers` has the rewrite as the source writes it: a
    `NetParameter` class whose layer list is replaced, and methods with the
    source's nested loops. Each method is proved equal to a function that
    follows the same loop (`ConnectPrefix` for the inner scan, `ScanFrom`
    for the backward scan, `RewritePrefix` for the outer loop).
  - Module `InsertGathersProofs` describes the result in closed form: who
    the nearest producer of a bottom is, which bottoms are bridged, which
    producers get a gather, how the consumer's bottoms are renamed, and where
    each block lands in the output. It proves the loop functions equal to
    that description.
  - Module `InsertGathersExamples` works through two small networks.
- **The MPI gather layer** (`MPIGatherLayer`).
  - Set-up checks that there are as many tops as bottoms.
  - Reshape multiplies dimension 0 by the number of ranks.
  - Forward is one rooted `MPI_Gather` per blob and backward is one rooted
    `MPI_Scatter` per blob, both with root 0. Module `Collectives` models them
    as pure functions over the per-rank buffers, following the MPI standard,
    version 3.1, sections 5.5 and 5.6.
  - Layer blobs are objects of class `Blobs.Blob`.
  - The model takes the view of one process of rank `rank` in a group of
    `size`. What the other ranks send is a parameter of the methods.
- **The dimension-swap Python layer** (`DimensionSwapLayer`).
  - Set-up parses the comma-separated axis order.
  - Reshape reorders the bottom shape by that order and computes the inverse
    order.
  - Forward is `numpy.transpose` by the order. Backward transposes the
    gradient back by the inverse order.
  - The Python string and list operations involved are modelled in module
    `PyText`: `str.split`, `int()` on a string, and Python's negative list
    indices.
  - Permutations and their inverses are in module `Permutations`.
  - Row-major shape arithmetic is in module `Shapes`.
  - numpy's transpose of a C-contiguous array is in module `NumpyTranspose`.

Behaviour of the code that the model keeps as written:
- **Rooted gather.** The layer uses a rooted gather, so only rank 0 receives
  the gathered blob.
- **No shape check before the scatter.** Backward scatters the top gradient
  without checking its shape first.
- **No rejection of malformed networks.** The rewrite does not reject
  duplicate layer names or bottoms that nothing produces.
- **Gather order: the nearest producer's gather comes first.** For the network
  `[A → x, B → y, L(x, y)]` the gather from `B` is emitted before the gather
  from `A` (`TwoProducers`).
- **Only the first of several identical bottom names is renamed.** When a
  serial layer reads the same blob name more than once, only the first
  occurrence is renamed to `gathered_<name>` (`RepeatedBottom`).

## Model

| member | source | states |
|---|---|---|
| InsertGathers.ConfigureGatherLayer | caffe-multigpu-ndconv-scnn/src/caffe/util/insert_gathers.cpp:78-90 | the gather layer has type `MPIGather` and name `gather_<down>_to_<up>`; it has one bottom `name` and one top `gathered_<name>` per connecting blob, in the connecting order, and its other fields are cleared |
| InsertGathers.NeedsGathers | caffe-multigpu-ndconv-scnn/src/caffe/util/insert_gathers.cpp:27-31 | a layer gets gathers iff its name is in the serial set and its type is none of `MPIGather`, `SoftmaxWithLoss`, `SigmoidCrossEntropyLoss`, `Accuracy`; every other layer is copied unchanged (proved in `BlockContents`, `EmptySerialSetIsIdentity`, `ExemptTypesAreIdentity`) |
| InsertGathers.GatherLayer | caffe-multigpu-ndconv-scnn/src/caffe/util/insert_gathers.cpp:78-90 | the layer `ConfigureGatherLayer` builds: type `MPIGather`, name `gather_<down>_to_<up>`, bottoms the connecting names in order, tops `gathered_<name>` one per bottom, options cleared (stated field by field by `ConfigureGatherLayer`'s ensures) |
| InsertGathers.BuildLayerTops | caffe-multigpu-ndconv-scnn/src/caffe/util/insert_gathers.cpp:13-20 | one set per layer, holding exactly the names of that layer's tops |
| InsertGathers.FindConnectingBlobs | caffe-multigpu-ndconv-scnn/src/caffe/util/insert_gathers.cpp:46-56 | the inner scan over the consumer's bottoms computes `ConnectPrefix`: a name claimed already is skipped; a name the producer writes is connected and claimed |
| InsertGathers.ConnectPrefix | caffe-multigpu-ndconv-scnn/src/caffe/util/insert_gathers.cpp:49-56 | the inner scan over the consumer's bottoms; visited after all nearer producers, a non-serial producer connects exactly the first-occurrence bottoms it owns and claims the names it writes (proved in `ConnectPrefixFindsFirstUses`, `ConnectPrefixFindsConnections`) |
| InsertGathers.ScanFrom | caffe-multigpu-ndconv-scnn/src/caffe/util/insert_gathers.cpp:41-67 | the backward scan for one consumer; it equals the closed form: one gather per bridging producer, nearest first, and one update per bridged first occurrence (proved in `ScanFromIsReference`) |
| InsertGathers.ApplyUpdates | caffe-multigpu-ndconv-scnn/src/caffe/util/insert_gathers.cpp:71-73 | the `set_bottom` loop; with distinct indices it writes exactly the recorded bottoms and keeps every other bottom (proved in `ApplyUpdatesWrites`, `RewiredBottoms`) |
| InsertGathers.Block | caffe-multigpu-ndconv-scnn/src/caffe/util/insert_gathers.cpp:25-74 | what one input layer contributes to the output: the layer itself when it needs no gathers, otherwise its gathers followed by the layer with only its bottoms changed (proved in `BlockContents`) |
| InsertGathers.RewritePrefix | caffe-multigpu-ndconv-scnn/src/caffe/util/insert_gathers.cpp:25-74 | the output after the first `n` layers; it is a prefix of the final output and is tiled by the blocks in input order (proved in `RewritePrefixGrows`, `BlocksInOrder`) |
| InsertGathers.Rewritten | caffe-multigpu-ndconv-scnn/src/caffe/util/insert_gathers.cpp:11-76 | the rewritten layer list: every input layer once, in order, after its gathers; its length is the input length plus the number of gathers; identity when nothing needs gathers (proved in `BlocksInOrder`, `RewrittenLength`, `NothingToGatherIsIdentity`) |
| InsertGathers.RecordUpdates | caffe-multigpu-ndconv-scnn/src/caffe/util/insert_gathers.cpp:62-66 | appends, per connecting blob `k`, the pair (its bottom index, the gather's `k`-th top) |
| InsertGathers.AppendGathersAndLayer | caffe-multigpu-ndconv-scnn/src/caffe/util/insert_gathers.cpp:36-73 | for a layer that needs gathers, appends exactly its `Block`: the backward scan's gathers and then the layer with the recorded bottom updates written |
| InsertGathers.InsertGathers | caffe-multigpu-ndconv-scnn/src/caffe/util/insert_gathers.cpp:11-76 | the layer list is replaced by `Rewritten(old layers, serial set)`; the other fields of the network are kept |
| InsertGathersProofs.NearestProducer | caffe-multigpu-ndconv-scnn/src/caffe/util/insert_gathers.cpp:39-45 | the producer of a name is the nearest earlier non-serial layer that lists it among its tops, with no such layer in between; -1 when there is none |
| InsertGathersProofs.FirstUses | caffe-multigpu-ndconv-scnn/src/caffe/util/insert_gathers.cpp:49-56 | exactly the bottoms that are the first occurrence of their name and whose producer is `p`, each once, in increasing index order |
| InsertGathersProofs.Producers | caffe-multigpu-ndconv-scnn/src/caffe/util/insert_gathers.cpp:42-57 | a layer is listed iff it lies in the scanned range and has at least one blob to bridge; all are non-serial, distinct, in decreasing position (nearest first) |
| InsertGathersProofs.NonEmptyConnectionsProducer | caffe-multigpu-ndconv-scnn/src/caffe/util/insert_gathers.cpp:44-45 | a layer with something to bridge is not serial |
| InsertGathersProofs.SerialLayerHasNoConnections | caffe-multigpu-ndconv-scnn/src/caffe/util/insert_gathers.cpp:44-45 | a serial layer bridges nothing and claims no name during the scan |
| InsertGathersProofs.ConnectPrefixFindsFirstUses | caffe-multigpu-ndconv-scnn/src/caffe/util/insert_gathers.cpp:49-56 | when the claimed names are those owned by later layers, the inner scan connects exactly the first uses owned by `p` and claims the names `p` writes |
| InsertGathersProofs.ConnectPrefixFindsConnections | caffe-multigpu-ndconv-scnn/src/caffe/util/insert_gathers.cpp:41-56 | visited after all nearer layers, a non-serial producer connects exactly the bottoms it owns, first occurrences only |
| InsertGathersProofs.UsedAfterVisit | caffe-multigpu-ndconv-scnn/src/caffe/util/insert_gathers.cpp:51-54 | after producer `p` is visited, `blobs_used` holds exactly the bottom names whose nearest producer is `p` or later |
| InsertGathersProofs.ScanFromIsReference | caffe-multigpu-ndconv-scnn/src/caffe/util/insert_gathers.cpp:41-67 | after the backward scan down to `lo`: the claimed names, one gather per producer (nearest first), and updates that rename every bridged first occurrence exactly once to `gathered_<name>` |
| InsertGathersProofs.ScanStepGather | caffe-multigpu-ndconv-scnn/src/caffe/util/insert_gathers.cpp:57-66 | visiting a producer with something to bridge appends exactly one gather and its updates, keeping the closed form |
| InsertGathersProofs.NewUpdates | caffe-multigpu-ndconv-scnn/src/caffe/util/insert_gathers.cpp:62-66 | the updates recorded for one gather extend a covering, duplicate-free update list to the next producer |
| InsertGathersProofs.ApplyUpdatesWrites | caffe-multigpu-ndconv-scnn/src/caffe/util/insert_gathers.cpp:71-73 | writing updates with distinct indices sets exactly those bottoms and leaves every other bottom unchanged |
| InsertGathersProofs.RewiredBottoms | caffe-multigpu-ndconv-scnn/src/caffe/util/insert_gathers.cpp:68-73 | the emitted consumer reads `gathered_<name>` exactly at the bottoms that are a first occurrence with a non-serial producer, and its original name elsewhere |
| InsertGathersProofs.BlockContents | caffe-multigpu-ndconv-scnn/src/caffe/util/insert_gathers.cpp:25-74 | a layer that needs no gathers is copied unchanged; otherwise its gathers come first, then the layer with only its bottoms changed |
| InsertGathersProofs.RewritePrefixGrows | caffe-multigpu-ndconv-scnn/src/caffe/util/insert_gathers.cpp:25-74 | later layers only append to the output: what was emitted for the first `n` layers is a prefix of the final output |
| InsertGathersProofs.BlocksInOrder | caffe-multigpu-ndconv-scnn/src/caffe/util/insert_gathers.cpp:25-75 | layer `i`'s block sits after the blocks of all earlier layers; it holds its gathers followed by the emitted layer `i`, so every original layer appears once, in its original order, after its gathers |
| InsertGathersProofs.RewritePrefixStep | caffe-multigpu-ndconv-scnn/src/caffe/util/insert_gathers.cpp:25-74 | each layer adds its gathers and itself to the output length |
| InsertGathersProofs.RewrittenLength | caffe-multigpu-ndconv-scnn/src/caffe/util/insert_gathers.cpp:25-75 | output length = number of input layers + number of inserted gather layers |
| InsertGathersProofs.NothingToGatherIsIdentity | caffe-multigpu-ndconv-scnn/src/caffe/util/insert_gathers.cpp:27-35 | when no layer needs gathers, the output equals the input |
| InsertGathersProofs.EmptySerialSetIsIdentity | caffe-multigpu-ndconv-scnn/src/caffe/util/insert_gathers.cpp:27 | with an empty serial set the output equals the input |
| InsertGathersProofs.ExemptTypesAreIdentity | caffe-multigpu-ndconv-scnn/src/caffe/util/insert_gathers.cpp:28-31 | when every layer has an exempt type, the output equals the input |
| InsertGathersExamples.TwoProducers | caffe-multigpu-ndconv-scnn/src/caffe/util/insert_gathers.cpp:11-76 | `[A → x, B → y, L(x, y)]` with `L` serial becomes `[A, B, gather_B_to_L, gather_A_to_L, L(gathered_x, gathered_y)]` |
| InsertGathersExamples.RepeatedBottom | caffe-multigpu-ndconv-scnn/src/caffe/util/insert_gathers.cpp:49-56 | a serial layer reading `x` twice gets one gather, and only its first `x` is renamed |
| InsertGathersExamples.BlockOfSerialLayer | caffe-multigpu-ndconv-scnn/src/caffe/util/insert_gathers.cpp:36-73 | the block emitted for `L` in the two-producer network |
| Collectives.Gather | caffe-multigpu-ndconv-scnn/include/caffe/util/mpi_templates.hpp:38-46 | the root receives `count` elements from each rank: `size * count` elements |
| Collectives.GatherSegment | caffe-multigpu-ndconv-scnn/include/caffe/util/mpi_templates.hpp:38-46 | rank `r`'s first `count` elements land in segment `[r * count, (r + 1) * count)` of the root's buffer |
| Collectives.GatherSegments | caffe-multigpu-ndconv-scnn/include/caffe/util/mpi_templates.hpp:38-46 | the same, for every rank at once |
| Collectives.Scatter | caffe-multigpu-ndconv-scnn/include/caffe/util/mpi_templates.hpp:54-62 | one buffer of `count` elements per rank |
| Collectives.ScatterSegment | caffe-multigpu-ndconv-scnn/include/caffe/util/mpi_templates.hpp:54-62 | rank `r` receives segment `[r * count, (r + 1) * count)` of the root's send buffer |
| Collectives.ScatterSegments | caffe-multigpu-ndconv-scnn/include/caffe/util/mpi_templates.hpp:54-62 | the same, for every rank at once |
| Collectives.ScatterGather | caffe-multigpu-ndconv-scnn/include/caffe/util/mpi_templates.hpp:38-62 | scattering what was gathered gives every rank back its own buffer |
| Collectives.GatherScatter | caffe-multigpu-ndconv-scnn/include/caffe/util/mpi_templates.hpp:38-62 | gathering what was scattered restores the scattered prefix of the root's buffer |
| Collectives.SingleRankCopies | caffe-multigpu-ndconv-scnn/include/caffe/util/mpi_templates.hpp:38-62 | with one rank, gather and scatter are copies |
| MPIGatherLayer.LayerSetUp | caffe-multigpu-ndconv-scnn/src/caffe/layers/mpi_gather_layer.cpp:12-16 | passes iff there are as many tops as bottoms; otherwise fails with the count mismatch |
| MPIGatherLayer.GatheredShape | caffe-multigpu-ndconv-scnn/src/caffe/layers/mpi_gather_layer.cpp:22-23 | dimension 0 multiplied by the group size, all other dimensions unchanged, so the count is multiplied by the group size |
| MPIGatherLayer.Reshape | caffe-multigpu-ndconv-scnn/src/caffe/layers/mpi_gather_layer.cpp:19-26 | every top `i` gets bottom `i`'s shape with dimension 0 scaled, holds `count(bottom[i]) * size` elements, and keeps the prefix of its buffers |
| MPIGatherLayer.GatherInto | caffe-multigpu-ndconv-scnn/src/caffe/layers/mpi_gather_layer.cpp:32-33 | at rank 0 the top data is the shards in rank order followed by what lay beyond; elsewhere it is untouched; shape and gradient are kept |
| MPIGatherLayer.ForwardCpu | caffe-multigpu-ndconv-scnn/src/caffe/layers/mpi_gather_layer.cpp:29-35 | for every blob `i`, with `c = count(bottom[i])`, segment `[r * c, (r + 1) * c)` of rank 0's top `i` is rank `r`'s bottom `i` data; other ranks' tops are untouched |
| MPIGatherLayer.ShardsLandInRankOrder | caffe-multigpu-ndconv-scnn/src/caffe/layers/mpi_gather_layer.cpp:31-34 | in the root's receive buffer, every rank's shard occupies its own segment |
| MPIGatherLayer.ScatterInto | caffe-multigpu-ndconv-scnn/src/caffe/layers/mpi_gather_layer.cpp:41-42 | the bottom gradient becomes this rank's segment of the root's buffer; shape and data are kept |
| MPIGatherLayer.BackwardCpu | caffe-multigpu-ndconv-scnn/src/caffe/layers/mpi_gather_layer.cpp:38-44 | for every blob `i`, each rank's bottom `i` gradient is its segment `[rank * c, (rank + 1) * c)` of rank 0's top `i` gradient |
| MPIGatherLayer.ScatterReturnsShards | caffe-multigpu-ndconv-scnn/src/caffe/layers/mpi_gather_layer.cpp:29-44 | scattering the buffer that forward gathered hands every rank back the shard it sent |
| MPIGatherLayer.SingleRankIsCopy | caffe-multigpu-ndconv-scnn/src/caffe/layers/mpi_gather_layer.cpp:29-44 | with a single rank, forward and backward copy the buffer |
| Blobs.Resized | caffe-multigpu-ndconv-scnn/src/caffe/layers/mpi_gather_layer.cpp:24 | the new buffer has the new length, keeps the old values that fit and is zero beyond them |
| Blobs.Blob.Reshape | caffe-multigpu-ndconv-scnn/src/caffe/layers/mpi_gather_layer.cpp:24 | the blob takes the new shape and both buffers are resized to its count |
| Shapes.Count | caffe-multigpu-ndconv-scnn/src/caffe/layers/mpi_gather_layer.cpp:32 | the element count of a shape is 0 iff some dimension is 0 |
| Shapes.Offset | python_layer/py_dim_swap_layer.py:25 | the row-major offset of an in-bounds index is below the count |
| Shapes.UnravelOffset | python_layer/py_dim_swap_layer.py:25 | unravelling the offset of an in-bounds index gives the index back |
| Shapes.OffsetUnravel | python_layer/py_dim_swap_layer.py:25 | the offset of an unravelled position is that position: offsets and indices are in bijection |
| Permutations.IndexOf | python_layer/py_dim_swap_layer.py:19 | `list.index`: the position of the first occurrence of the value |
| Permutations.Permute | python_layer/py_dim_swap_layer.py:14 | `[s[i] for i in p]`: entry `a` is `s[p[a]]` |
| Permutations.InversePerm | python_layer/py_dim_swap_layer.py:18-19 | entry `b` is a position of `b` in `p` |
| Permutations.CoversIsPermutation | python_layer/py_dim_swap_layer.py:17-19 | a list of length `n` holding every value below `n` holds nothing else and no value twice |
| Permutations.IndexOfDistinct | python_layer/py_dim_swap_layer.py:19 | in a permutation, the value at a position has that position as its index |
| Permutations.InverseCancels | python_layer/py_dim_swap_layer.py:18-19 | `order[reverse_order[i]] == i` and `reverse_order[order[j]] == j` |
| Permutations.InverseIsPermutation | python_layer/py_dim_swap_layer.py:18-19 | the inverse of a permutation is a permutation |
| Permutations.InverseInverse | python_layer/py_dim_swap_layer.py:18-19 | the inverse of the inverse is the original order |
| Permutations.PermuteInverse | python_layer/py_dim_swap_layer.py:14-19 | permuting by `order` and then by `reverse_order`, or the other way round, restores the sequence |
| Permutations.PermuteInBounds | python_layer/py_dim_swap_layer.py:14-16 | a permuted in-bounds index is in bounds for the permuted shape |
| Permutations.DropLargest | python_layer/py_dim_swap_layer.py:17-19 | removing the largest value from a permutation leaves a permutation |
| Permutations.CountPermute | python_layer/py_dim_swap_layer.py:14-16 | reordering the dimensions keeps the element count |
| NumpyTranspose.Transpose | python_layer/py_dim_swap_layer.py:25 | `np.transpose(data, order)` copied into a contiguous buffer: same element count, and source element `j` lands at `Permute(j, order)` of the permuted shape (proved in `TransposeElement`, `TransposeRoundTrip`) |
| NumpyTranspose.TransposeElement | python_layer/py_dim_swap_layer.py:25 | the element at index `j` of the source appears at index `Permute(j, axes)` of the result, in the permuted shape |
| NumpyTranspose.RoundTripAt | python_layer/py_dim_swap_layer.py:25-30 | one position of the transpose round trip comes back unchanged |
| NumpyTranspose.TransposeRoundTrip | python_layer/py_dim_swap_layer.py:19-30 | permuting the top shape by `reverse_order` gives the bottom shape, and transposing by `order` then by `reverse_order` restores the data |
| NumpyTranspose.TransposeIdentity | python_layer/py_dim_swap_layer.py:25 | transposing by the identity order copies the data |
| PyText.TrimLeft | python_layer/py_dim_swap_layer.py:10 | removes exactly the leading whitespace |
| PyText.TrimRight | python_layer/py_dim_swap_layer.py:10 | removes exactly the trailing whitespace |
| PyText.StripPadded | python_layer/py_dim_swap_layer.py:10 | stripping ignores whitespace around a string whose ends are not whitespace |
| PyText.FormatInt | python_layer/py_dim_swap_layer.py:10 | `str(n)` is non-empty, has no whitespace at its ends and no comma |
| PyText.ParseInt | python_layer/py_dim_swap_layer.py:10 | `int(x)` on a string: `int(str(n)) == n` with any whitespace around, whitespace after a sign is accepted, and a blank string raises `ValueError` (proved in `ParseFormatInt`, `SpaceAfterSign`, `BlankFails`) |
| PyText.ParseFormatInt | python_layer/py_dim_swap_layer.py:10 | `int(str(n)) == n`, also with whitespace around the digits |
| PyText.SpaceAfterSign | python_layer/py_dim_swap_layer.py:10 | `int()` accepts whitespace between a minus sign and the digits and returns minus the digits' value |
| PyText.Split | python_layer/py_dim_swap_layer.py:10 | `s.split(sep)` gives at least one piece, no piece holds `sep`, and joining the pieces with `sep` gives `s` back |
| PyText.JoinInjective | python_layer/py_dim_swap_layer.py:10 | lists of pieces without the separator are determined by their join |
| PyText.SplitJoin | python_layer/py_dim_swap_layer.py:10 | splitting a join of separator-free pieces gives the pieces back |
| PyText.ParseAllMeaning | python_layer/py_dim_swap_layer.py:10 | the list comprehension succeeds iff every piece parses, and then holds the parsed values in order |
| PyText.ParseIntList | python_layer/py_dim_swap_layer.py:10 | `[int(x) for x in s.split(',')]`: succeeds iff every comma-separated piece parses, giving the values in order, and parses a comma-joined list of integers back to itself (proved in `ParseAllMeaning`, `ParseFormatIntList`) |
| PyText.ParseFormatIntList | python_layer/py_dim_swap_layer.py:10 | parsing a comma-joined list of integers returns the list |
| PyText.BlankFails | python_layer/py_dim_swap_layer.py:10 | a blank parameter string raises `ValueError` |
| DimSwapLayer.PyIndex | python_layer/py_dim_swap_layer.py:14 | index `i` is valid iff `-n <= i < n`, and a negative index counts from the end |
| DimSwapLayer.SwappedShape | python_layer/py_dim_swap_layer.py:13-14 | `[bshape[i] for i in order]` succeeds iff every entry is a valid index; entry `k` is `bshape[order[k]]` |
| DimSwapLayer.ReverseOrder | python_layer/py_dim_swap_layer.py:18-19 | succeeds iff every axis occurs in `order`, and is then its inverse |
| DimSwapLayer.SwappedShapeOfPermutation | python_layer/py_dim_swap_layer.py:14 | for a permutation the swapped shape is the bottom shape permuted by `order` |
| DimSwapLayer.ReshapeChecksIffPermutation | python_layer/py_dim_swap_layer.py:14-19 | the three checks of reshape all pass iff `order` is a permutation of the bottom's axes |
| DimSwapLayer.DimensionSwapLayer.Setup | python_layer/py_dim_swap_layer.py:6-10 | `AssertionError` unless there is exactly one bottom and one top; `ValueError` when the parameter string does not parse; otherwise `order` is the parsed list |
| DimSwapLayer.DimensionSwapLayer.Reshape | python_layer/py_dim_swap_layer.py:12-19 | `IndexError` before anything changes when an entry is out of range; otherwise the top is reshaped first; then `AssertionError` on a length mismatch or `ValueError` on a missing axis; it passes iff `order` is a permutation, and then `reverse_order` is its inverse and maps the top shape back to the bottom shape |
| DimSwapLayer.DimensionSwapLayer.Forward | python_layer/py_dim_swap_layer.py:23-25 | the top data is the bottom data transposed by `order`; the top's shape and gradient are kept |
| DimSwapLayer.DimensionSwapLayer.Backward | python_layer/py_dim_swap_layer.py:27-30 | `IndexError` on an empty `prop_down`; when `prop_down[0]` holds, the bottom gradient is the top gradient transposed by `reverse_order`; otherwise it is untouched |

## Left out

- The other files of the repository are not part of this model: batch normalisation, the data layer, the label converters, the log plotter. The header `insert_gathers.hpp` only declares the two functions.
- Blobs.Resized and Blobs.Blob.Reshape stand in for `Blob::Reshape`; `blob.cpp` is not part of this model. They set the shape and resize both buffers, keeping the common prefix and filling the rest with zeros. Caffe's contents after a grow differ: past the old capacity it allocates a fresh zeroed buffer, and within the capacity it keeps stale values. Capacity handling and lazy allocation are left out.
- Protocol-buffer messages are values. The layer options and the other fields of the network description are opaque. `CopyFrom` and `Clear` are value assignment.
- The MPI collectives are modelled on the values they move. Blocking, process synchronisation, deadlock, communicators other than `MPI_COMM_WORLD` and the element-type tags are left out. The return codes of `MPI_Gather` and `MPI_Scatter` are discarded by the layer and are not modelled.
- MPIGatherLayer.ForwardCpu, MPIGatherLayer.BackwardCpu and MPIGatherLayer.Reshape require the top and bottom blobs to be distinct objects. Caffe never aliases them here, and aliasing is not modelled.
- MPIGatherLayer.ForwardCpu and MPIGatherLayer.BackwardCpu take the other ranks' send buffers, and rank 0's top gradient, as parameters, because one process cannot read them. At rank 0, Forward requires the top buffers to be large enough, which Reshape provides. Forward requires every rank's send buffer for blob `i` to hold this rank's `count(bottom[i])` elements, MPI's count-matching rule, which the C++ code does not check. Backward requires rank 0's top gradient `i` to hold at least `size * count(bottom[i])` elements, which the C++ code does not check either (there is no shape check before the scatter).
- MPIGatherLayer.Reshape computes `shape[0] * size` on unbounded integers. The 32-bit `int` overflow of the C++ code for huge shapes is not modelled.
- MPIGatherLayer.GatheredShape requires a non-empty shape, and so does MPIGatherLayer.Reshape for every bottom. The C++ code reads `shape[0]`, which is out of bounds (undefined behaviour) on a 0-axis blob, so the model excludes that case. Such a blob can reach this layer: loss and accuracy layers produce 0-axis tops, and the rewrite does not stop a serial, non-exempt layer from reading one from a non-serial producer.
- MPIGatherLayer.BackwardCpu ignores `propagate_down`, as the C++ code does.
- Floating-point values are Dafny `real`s. The layers only copy them, so rounding plays no part.
- PyText.ParseInt follows Python 2's `int()` on a byte string: strip ASCII whitespace, an optional sign, whitespace again after a sign (as `PyOS_strtoul` skips it), one or more decimal digits. Python 3 differs and is not modelled: it accepts underscores between digits and Unicode whitespace and digits, and it rejects whitespace between the sign and the digits (`int('- 1')` raises `ValueError` there, while the model returns -1).
- DimSwapLayer.DimensionSwapLayer.Forward and DimSwapLayer.DimensionSwapLayer.Backward require the blob shapes that a successful Reshape leaves. numpy's broadcasting of a mismatched assignment (or its `ValueError`) is not modelled. Caffe always calls reshape before forward and backward.
- DimSwapLayer.DimensionSwapLayer.Reshape requires the bottom and top blobs to be different objects, as Caffe passes them.
- numpy's transpose is modelled on the flat row-major data of C-contiguous arrays. Strides and views are not modelled, because the layer copies the result into a contiguous buffer at once.
