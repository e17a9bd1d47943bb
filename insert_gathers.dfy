/**
 * The gather-insertion rewrite of a network description.
 *
 * A network is an ordered list of layer descriptions. For every layer that
 * must see synchronized data (its name is in the serial set and its type is
 * not exempt), the rewrite inserts, before it, one MPIGather layer per nearest
 * non-serial producer of its bottom blobs, and renames the bottoms it feeds to
 * `gathered_<name>`.
 *
 * The functions below follow the loops of the rewrite one by one; the lemmas
 * in module InsertGathersProofs state what they compute in closed form.
 */
module InsertGathers {

  /** The fields of a layer description other than name, type, bottoms and tops, left opaque. */
  datatype LayerOptions = LayerOptions(encoded: seq<bv8>)

  /** The fields of a network description other than its layers, left opaque. */
  datatype NetOptions = NetOptions(encoded: seq<bv8>)

  /** One layer description: its name, its type tag, the blobs it reads and the blobs it writes. */
  datatype LayerParameter = LayerParameter(
    name: string,
    layerType: string,
    bottom: seq<string>,
    top: seq<string>,
    options: LayerOptions)

  /** A bottom reference of the consuming layer: its position and the blob name (or its replacement). */
  datatype BlobRef = BlobRef(index: nat, name: string)

  /** Layer types that never get a gather before them. */
  const ExemptTypes: set<string> := {GatherType, "SoftmaxWithLoss", "SigmoidCrossEntropyLoss", "Accuracy"}

  const GatherType: string := "MPIGather"

  /** True when the rewrite inserts gathers before `up`; every other layer is copied unchanged. */
  predicate NeedsGathers(up: LayerParameter, serialLayers: set<string>)
  {
    up.name in serialLayers && up.layerType !in ExemptTypes
  }

  function GatheredName(name: string): string
  {
    "gathered_" + name
  }

  function GatherLayerName(downName: string, upName: string): string
  {
    "gather_" + downName + "_to_" + upName
  }

  /** The set of blob names a layer writes. */
  function TopSet(layer: LayerParameter): set<string>
  {
    set t | t in layer.top
  }

  function Names(refs: seq<BlobRef>): seq<string>
  {
    seq(|refs|, m requires 0 <= m < |refs| => refs[m].name)
  }

  /** The gather layer that bridges producer `downName` and consumer `upName` over `refs`. */
  function GatherLayer(downName: string, upName: string, refs: seq<BlobRef>): LayerParameter
  {
    LayerParameter(
      GatherLayerName(downName, upName),
      GatherType,
      Names(refs),
      seq(|refs|, m requires 0 <= m < |refs| => GatheredName(refs[m].name)),
      LayerOptions([]))
  }

  /**
   * Builds the gather layer: the description is cleared, then given its type,
   * its name, and one bottom and one top per connecting blob.
   */
  method ConfigureGatherLayer(layerDownName: string, layerUpName: string, connectingBlobs: seq<BlobRef>)
    returns (layerParam: LayerParameter)
    ensures layerParam.layerType == "MPIGather"
    ensures layerParam.name == "gather_" + layerDownName + "_to_" + layerUpName
    ensures |layerParam.bottom| == |layerParam.top| == |connectingBlobs|
    ensures forall m :: 0 <= m < |connectingBlobs| ==>
              layerParam.bottom[m] == connectingBlobs[m].name &&
              layerParam.top[m] == "gathered_" + connectingBlobs[m].name
    ensures layerParam.options == LayerOptions([])
    ensures layerParam == GatherLayer(layerDownName, layerUpName, connectingBlobs)
  {
    layerParam := LayerParameter("", "", [], [], LayerOptions([]));
    layerParam := layerParam.(layerType := GatherType);
    layerParam := layerParam.(name := GatherLayerName(layerDownName, layerUpName));
    var i := 0;
    while i < |connectingBlobs|
      invariant 0 <= i <= |connectingBlobs|
      invariant |layerParam.bottom| == |layerParam.top| == i
      invariant forall m :: 0 <= m < i ==>
                  layerParam.bottom[m] == connectingBlobs[m].name &&
                  layerParam.top[m] == GatheredName(connectingBlobs[m].name)
      invariant layerParam.name == GatherLayerName(layerDownName, layerUpName)
      invariant layerParam.layerType == GatherType && layerParam.options == LayerOptions([])
    {
      var bottomBlobName := connectingBlobs[i].name;
      layerParam := layerParam.(bottom := layerParam.bottom + [bottomBlobName]);
      layerParam := layerParam.(top := layerParam.top + [GatheredName(bottomBlobName)]);
      i := i + 1;
    }
  }

  /**
   * The scan over the first `n` bottoms of the consumer against the tops of one
   * producer: a bottom already matched is skipped; a bottom the producer
   * writes is recorded and marked matched. Returns the connecting blobs and
   * the new set of matched names.
   */
  function ConnectPrefix(bottom: seq<string>, tops: set<string>, used: set<string>, n: nat)
    : (r: (seq<BlobRef>, set<string>))
    requires n <= |bottom|
    ensures forall m :: 0 <= m < |r.0| ==> r.0[m].index < n
  {
    if n == 0 then ([], used)
    else
      var (connecting, used') := ConnectPrefix(bottom, tops, used, n - 1);
      var name := bottom[n - 1];
      if name in used' then (connecting, used')
      else if name in tops then (connecting + [BlobRef(n - 1, name)], used' + {name})
      else (connecting, used')
  }

  /** The state of the backward scan for one consumer. */
  datatype ScanState = ScanState(gathers: seq<LayerParameter>, updates: seq<BlobRef>, used: set<string>)

  /** The bottom updates recorded for one gather layer: input k becomes the gather's k-th top. */
  function UpdatesFor(connecting: seq<BlobRef>, gatherTops: seq<string>, n: nat): (r: seq<BlobRef>)
    requires n <= |connecting| == |gatherTops|
    ensures |r| == n
    ensures forall m :: 0 <= m < n ==> r[m] == BlobRef(connecting[m].index, gatherTops[m])
  {
    if n == 0 then []
    else UpdatesFor(connecting, gatherTops, n - 1) + [BlobRef(connecting[n - 1].index, gatherTops[n - 1])]
  }

  /**
   * One step of the backward scan: producer `down` is matched against the
   * bottoms of consumer `up` that are not matched yet, and yields one gather
   * layer when it writes any of them.
   */
  function VisitProducer(up: LayerParameter, down: LayerParameter, s: ScanState): (r: ScanState)
    requires forall m :: 0 <= m < |s.updates| ==> s.updates[m].index < |up.bottom|
    ensures forall m :: 0 <= m < |r.updates| ==> r.updates[m].index < |up.bottom|
  {
    var (connecting, used) := ConnectPrefix(up.bottom, TopSet(down), s.used, |up.bottom|);
    if connecting == [] then s.(used := used)
    else
      var gather := GatherLayer(down.name, up.name, connecting);
      ScanState(s.gathers + [gather], s.updates + UpdatesFor(connecting, gather.top, |connecting|), used)
  }

  /**
   * The state of the backward scan for consumer `i` after visiting the layers
   * `i - 1` down to `lo`; serial producers are skipped.
   */
  function ScanFrom(layers: seq<LayerParameter>, serialLayers: set<string>, i: nat, lo: nat): (s: ScanState)
    requires lo <= i < |layers|
    ensures forall m :: 0 <= m < |s.updates| ==> s.updates[m].index < |layers[i].bottom|
    decreases i - lo
  {
    if lo == i then ScanState([], [], {})
    else
      var s := ScanFrom(layers, serialLayers, i, lo + 1);
      if layers[lo].name in serialLayers then s else VisitProducer(layers[i], layers[lo], s)
  }

  /** The bottoms after the first `n` recorded updates have been written in order. */
  function ApplyUpdates(bottom: seq<string>, updates: seq<BlobRef>, n: nat): (r: seq<string>)
    requires n <= |updates|
    requires forall m :: 0 <= m < |updates| ==> updates[m].index < |bottom|
    ensures |r| == |bottom|
  {
    if n == 0 then bottom
    else ApplyUpdates(bottom, updates, n - 1)[updates[n - 1].index := updates[n - 1].name]
  }

  /** What the rewrite emits for layer `i`: the layer itself, or its gathers followed by the rewired layer. */
  function Block(layers: seq<LayerParameter>, serialLayers: set<string>, i: nat): seq<LayerParameter>
    requires i < |layers|
  {
    var up := layers[i];
    if !NeedsGathers(up, serialLayers) then [up]
    else
      var s := ScanFrom(layers, serialLayers, i, 0);
      s.gathers + [up.(bottom := ApplyUpdates(up.bottom, s.updates, |s.updates|))]
  }

  /** The output after the first `n` layers have been processed. */
  function RewritePrefix(layers: seq<LayerParameter>, serialLayers: set<string>, n: nat): seq<LayerParameter>
    requires n <= |layers|
  {
    if n == 0 then [] else RewritePrefix(layers, serialLayers, n - 1) + Block(layers, serialLayers, n - 1)
  }

  /** The layer list that the rewrite produces. */
  function Rewritten(layers: seq<LayerParameter>, serialLayers: set<string>): seq<LayerParameter>
  {
    RewritePrefix(layers, serialLayers, |layers|)
  }

  /**
   * Finds the bottoms of the consumer that the producer with top set `tops`
   * writes and that no nearer producer has claimed; each is claimed in turn.
   */
  method FindConnectingBlobs(bottom: seq<string>, tops: set<string>, used: set<string>)
    returns (connectingBlobs: seq<BlobRef>, blobsUsed: set<string>)
    ensures (connectingBlobs, blobsUsed) == ConnectPrefix(bottom, tops, used, |bottom|)
  {
    connectingBlobs, blobsUsed := [], used;
    for k := 0 to |bottom|
      invariant (connectingBlobs, blobsUsed) == ConnectPrefix(bottom, tops, used, k)
    {
      var name := bottom[k];
      if name in blobsUsed {
        continue;
      }
      if name in tops {
        connectingBlobs := connectingBlobs + [BlobRef(k, name)];
        blobsUsed := blobsUsed + {name};
      }
    }
  }

  /** A network description whose layer list the rewrite replaces. */
  class NetParameter {
    var layer: seq<LayerParameter>
    var options: NetOptions

    constructor (layer: seq<LayerParameter>, options: NetOptions)
      ensures this.layer == layer && this.options == options
    {
      this.layer := layer;
      this.options := options;
    }
  }

  /** The set of tops of every layer, in layer order. */
  method BuildLayerTops(layers: seq<LayerParameter>) returns (layerTops: seq<set<string>>)
    ensures |layerTops| == |layers|
    ensures forall m :: 0 <= m < |layers| ==> layerTops[m] == TopSet(layers[m])
  {
    layerTops := [];
    for i := 0 to |layers|
      invariant |layerTops| == i
      invariant forall m :: 0 <= m < i ==> layerTops[m] == TopSet(layers[m])
    {
      var tops: set<string> := {};
      for j := 0 to |layers[i].top|
        invariant tops == set t | t in layers[i].top[..j]
      {
        tops := tops + {layers[i].top[j]};
      }
      assert layers[i].top[..|layers[i].top|] == layers[i].top;
      layerTops := layerTops + [tops];
    }
  }

  /** Records that bottom `connectingBlobs[k].index` is to be read from the gather's `k`-th top. */
  method RecordUpdates(updates: seq<BlobRef>, connectingBlobs: seq<BlobRef>, gatherTops: seq<string>)
    returns (updates': seq<BlobRef>)
    requires |connectingBlobs| == |gatherTops|
    ensures updates' == updates + UpdatesFor(connectingBlobs, gatherTops, |connectingBlobs|)
  {
    updates' := updates;
    for k := 0 to |connectingBlobs|
      invariant updates' == updates + UpdatesFor(connectingBlobs, gatherTops, k)
    {
      updates' := updates' + [BlobRef(connectingBlobs[k].index, gatherTops[k])];
    }
  }

  /**
   * What the rewrite appends for a consumer that needs gathers: one gather
   * layer per nearest non-serial producer of its bottoms, nearest first, then
   * the consumer with the gathered bottoms in place of the originals.
   */
  method AppendGathersAndLayer(layers: seq<LayerParameter>, layerTops: seq<set<string>>,
                               serialLayers: set<string>, i: nat, paramGather0: seq<LayerParameter>)
    returns (paramGather: seq<LayerParameter>)
    requires i < |layers| == |layerTops|
    requires forall m :: 0 <= m < |layers| ==> layerTops[m] == TopSet(layers[m])
    requires NeedsGathers(layers[i], serialLayers)
    ensures paramGather == paramGather0 + Block(layers, serialLayers, i)
  {
    paramGather := paramGather0;
    var layerUp := layers[i];
    // First all the gathers, nearest producer first; then the layer itself.
    var updateBottoms: seq<BlobRef> := [];
    var blobsUsed: set<string> := {};
    ghost var prefix := paramGather;
    for j := i downto 0
      invariant paramGather == prefix + ScanFrom(layers, serialLayers, i, j).gathers
      invariant updateBottoms == ScanFrom(layers, serialLayers, i, j).updates
      invariant blobsUsed == ScanFrom(layers, serialLayers, i, j).used
    {
      ghost var s := ScanFrom(layers, serialLayers, i, j + 1);
      var layerDown := layers[j];
      if layerDown.name in serialLayers {
        assert ScanFrom(layers, serialLayers, i, j) == s;
        continue;
      }
      var tops := layerTops[j];
      assert tops == TopSet(layerDown);
      assert blobsUsed == s.used;
      var connectingBlobs;
      connectingBlobs, blobsUsed := FindConnectingBlobs(layerUp.bottom, tops, blobsUsed);
      assert ScanFrom(layers, serialLayers, i, j) == VisitProducer(layerUp, layerDown, s);
      if connectingBlobs == [] {
        continue;
      }
      var gatherLayer := ConfigureGatherLayer(layerDown.name, layerUp.name, connectingBlobs);
      paramGather := paramGather + [gatherLayer];
      assert paramGather == prefix + (s.gathers + [gatherLayer]);
      updateBottoms := RecordUpdates(updateBottoms, connectingBlobs, gatherLayer.top);
      assert VisitProducer(layerUp, layerDown, s)
          == ScanState(s.gathers + [gatherLayer], s.updates + UpdatesFor(connectingBlobs, gatherLayer.top, |connectingBlobs|), blobsUsed);
    }
    var layer := layerUp;
    for k := 0 to |updateBottoms|
      invariant layer == layerUp.(bottom := ApplyUpdates(layerUp.bottom, updateBottoms, k))
    {
      layer := layer.(bottom := layer.bottom[updateBottoms[k].index := updateBottoms[k].name]);
    }
    assert Block(layers, serialLayers, i) == ScanFrom(layers, serialLayers, i, 0).gathers + [layer];
    paramGather := paramGather + [layer];
  }

  /**
   * Rewrites the layer list of `param` in place: every layer that needs
   * synchronized input gets its gathers spliced in before it.
   */
  method InsertGathers(serialLayers: set<string>, param: NetParameter)
    modifies param
    ensures param.layer == Rewritten(old(param.layer), serialLayers)
    ensures param.options == old(param.options)
  {
    var layers := param.layer;
    var numLayers := |layers|;
    var layerTops := BuildLayerTops(layers);
    // The new description starts as a copy of the old one without layers.
    var paramGather: seq<LayerParameter> := [];
    var gatherOptions := param.options;
    for i := 0 to numLayers
      invariant paramGather == RewritePrefix(layers, serialLayers, i)
    {
      var layerUp := layers[i];
      if !NeedsGathers(layerUp, serialLayers) {
        paramGather := paramGather + [layerUp];
        continue;
      }
      paramGather := AppendGathersAndLayer(layers, layerTops, serialLayers, i, paramGather);
    }
    param.layer := paramGather;
    param.options := gatherOptions;
  }
}
