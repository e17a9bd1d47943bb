/**
 * What the gather-insertion rewrite computes, in closed form.
 *
 * The loops of the rewrite are modelled step by step in module InsertGathers.
 * Here the same result is described without reference to the scan order: the
 * producer of a bottom is the nearest preceding non-serial layer that writes
 * it, only the first occurrence of a name among a layer's bottoms is bridged,
 * and every producer with something to bridge gets exactly one gather layer.
 */
module InsertGathersProofs {
  import opened InsertGathers

  /** True when layer `j` is not serial and lists `name` among its tops. */
  predicate IsProducer(layers: seq<LayerParameter>, serialLayers: set<string>, j: nat, name: string)
    requires j < |layers|
  {
    layers[j].name !in serialLayers && name in layers[j].top
  }

  /** The nearest layer before `hi` that produces `name`, or -1 when none does. */
  function NearestProducer(layers: seq<LayerParameter>, serialLayers: set<string>, hi: nat, name: string): (p: int)
    requires hi <= |layers|
    ensures -1 <= p < hi
    ensures p >= 0 ==> IsProducer(layers, serialLayers, p, name)
    ensures forall j :: p < j < hi ==> !IsProducer(layers, serialLayers, j, name)
    decreases hi
  {
    if hi == 0 then -1
    else if IsProducer(layers, serialLayers, hi - 1, name) then hi - 1
    else NearestProducer(layers, serialLayers, hi - 1, name)
  }

  /** True when bottom `k` is the first bottom with its name. */
  predicate FirstOccurrence(bottom: seq<string>, k: nat)
    requires k < |bottom|
  {
    bottom[k] !in bottom[..k]
  }

  /** True when bottom `k` of layer `i` is bridged by some gather layer. */
  predicate Matched(layers: seq<LayerParameter>, serialLayers: set<string>, i: nat, k: nat)
    requires i < |layers| && k < |layers[i].bottom|
  {
    FirstOccurrence(layers[i].bottom, k) && NearestProducer(layers, serialLayers, i, layers[i].bottom[k]) >= 0
  }

  /** The nearest producer of each bottom of layer `i`. */
  function Owners(layers: seq<LayerParameter>, serialLayers: set<string>, i: nat): (o: seq<int>)
    requires i < |layers|
    ensures |o| == |layers[i].bottom|
    ensures forall k :: 0 <= k < |o| ==> o[k] == NearestProducer(layers, serialLayers, i, layers[i].bottom[k])
  {
    seq(|layers[i].bottom|, k requires 0 <= k < |layers[i].bottom| =>
      NearestProducer(layers, serialLayers, i, layers[i].bottom[k]))
  }

  /**
   * The first `n` bottoms whose owner is `p`, first occurrences only, in
   * index order.
   */
  function FirstUses(bottom: seq<string>, owners: seq<int>, p: int, n: nat): (r: seq<BlobRef>)
    requires n <= |bottom| == |owners|
    ensures forall m :: 0 <= m < |r| ==>
              r[m].index < n && r[m].name == bottom[r[m].index] &&
              FirstOccurrence(bottom, r[m].index) && owners[r[m].index] == p
    ensures forall m, m' :: 0 <= m < m' < |r| ==> r[m].index < r[m'].index
    ensures forall k :: 0 <= k < n && FirstOccurrence(bottom, k) && owners[k] == p ==>
              BlobRef(k, bottom[k]) in r
  {
    if n == 0 then []
    else
      var r := FirstUses(bottom, owners, p, n - 1);
      if FirstOccurrence(bottom, n - 1) && owners[n - 1] == p
      then r + [BlobRef(n - 1, bottom[n - 1])]
      else r
  }

  /** The connections from producer `p` to consumer `i`. */
  function Connections(layers: seq<LayerParameter>, serialLayers: set<string>, i: nat, p: int): seq<BlobRef>
    requires i < |layers|
  {
    FirstUses(layers[i].bottom, Owners(layers, serialLayers, i), p, |layers[i].bottom|)
  }

  /** True when producer `p` has at least one blob to bridge to consumer `i`. */
  predicate Bridged(layers: seq<LayerParameter>, serialLayers: set<string>, i: nat, p: int)
    requires i < |layers|
  {
    Connections(layers, serialLayers, i, p) != []
  }

  /**
   * The producers, among layers `lo` to `i - 1`, that get a gather layer
   * before consumer `i`, nearest first.
   */
  function Producers(layers: seq<LayerParameter>, serialLayers: set<string>, i: nat, lo: nat): (ps: seq<nat>)
    requires lo <= i < |layers|
    ensures forall p :: p in ps <==> lo <= p < i && Bridged(layers, serialLayers, i, p)
    ensures forall m :: 0 <= m < |ps| ==> lo <= ps[m] < i && layers[ps[m]].name !in serialLayers
    ensures forall m, m' :: 0 <= m < m' < |ps| ==> ps[m] > ps[m']
    decreases i - lo
  {
    if lo == i then []
    else
      var ps := Producers(layers, serialLayers, i, lo + 1);
      if Bridged(layers, serialLayers, i, lo) then
        NonEmptyConnectionsProducer(layers, serialLayers, i, lo);
        ps + [lo]
      else ps
  }

  /** The gather layers for the producers `ps` of consumer `i`, in the order of `ps`. */
  function GathersOf(layers: seq<LayerParameter>, serialLayers: set<string>, i: nat, ps: seq<nat>): (gs: seq<LayerParameter>)
    requires i < |layers|
    requires forall m :: 0 <= m < |ps| ==> ps[m] < |layers|
  {
    seq(|ps|, m requires 0 <= m < |ps| =>
      GatherLayer(layers[ps[m]].name, layers[i].name, Connections(layers, serialLayers, i, ps[m])))
  }

  /** The bottoms that consumer `i` reads after the rewrite. */
  function ReferenceBottoms(layers: seq<LayerParameter>, serialLayers: set<string>, i: nat): seq<string>
    requires i < |layers|
  {
    var b := layers[i].bottom;
    seq(|b|, k requires 0 <= k < |b| =>
      if Matched(layers, serialLayers, i, k) then GatheredName(b[k]) else b[k])
  }

  /** The names among the bottoms of consumer `i` whose producer is at `lo` or later. */
  function UsedAbove(layers: seq<LayerParameter>, serialLayers: set<string>, i: nat, lo: nat): set<string>
    requires i < |layers|
  {
    set x | x in layers[i].bottom && NearestProducer(layers, serialLayers, i, x) >= lo
  }

  /** The names among the first `n` bottoms that `tops` contains. */
  function TopsAmong(bottom: seq<string>, tops: set<string>, n: nat): (r: set<string>)
    requires n <= |bottom|
    ensures forall x :: x in r ==> x in tops && x in bottom[..n]
    ensures forall k :: 0 <= k < n && bottom[k] in tops ==> bottom[k] in r
  {
    if n == 0 then {}
    else
      var r := TopsAmong(bottom, tops, n - 1);
      assert bottom[..n] == bottom[..n - 1] + [bottom[n - 1]];
      if bottom[n - 1] in tops then r + {bottom[n - 1]} else r
  }

  /** Each update renames a first occurrence whose owner is `lo` or later to its `gathered_` name. */
  ghost predicate UpdatesSound(bottom: seq<string>, owners: seq<int>, lo: int, u: seq<BlobRef>)
    requires |bottom| == |owners|
  {
    forall m :: 0 <= m < |u| ==>
      u[m].index < |bottom| && u[m].name == GatheredName(bottom[u[m].index]) &&
      FirstOccurrence(bottom, u[m].index) && owners[u[m].index] >= lo
  }

  /** No two updates touch the same bottom. */
  ghost predicate UpdatesDistinct(u: seq<BlobRef>)
  {
    forall m, m' :: 0 <= m < m' < |u| ==> u[m].index != u[m'].index
  }

  /** Every first occurrence whose owner is `lo` or later is updated. */
  ghost predicate UpdatesComplete(bottom: seq<string>, owners: seq<int>, lo: int, u: seq<BlobRef>)
    requires |bottom| == |owners|
  {
    forall k :: 0 <= k < |bottom| && FirstOccurrence(bottom, k) && owners[k] >= lo ==>
      exists m :: 0 <= m < |u| && u[m].index == k
  }

  /**
   * The updates `u` rename exactly the first occurrences whose owner is `lo`
   * or later, each once, to their `gathered_` name.
   */
  ghost predicate UpdatesCover(bottom: seq<string>, owners: seq<int>, lo: int, u: seq<BlobRef>)
    requires |bottom| == |owners|
  {
    UpdatesSound(bottom, owners, lo, u) && UpdatesDistinct(u) && UpdatesComplete(bottom, owners, lo, u)
  }

  /** The recorded bottom updates are exactly the bridged bottoms whose producer is at `lo` or later. */
  ghost predicate UpdatesExact(layers: seq<LayerParameter>, serialLayers: set<string>, i: nat, lo: nat, u: seq<BlobRef>)
    requires i < |layers|
  {
    UpdatesCover(layers[i].bottom, Owners(layers, serialLayers, i), lo, u)
  }

  // ---------------------------------------------------------------------------
  // Producers and connections

  /** A producer with connections is a non-serial layer. */
  lemma NonEmptyConnectionsProducer(layers: seq<LayerParameter>, serialLayers: set<string>, i: nat, p: nat)
    requires p < i < |layers|
    requires Connections(layers, serialLayers, i, p) != []
    ensures layers[p].name !in serialLayers
  {
    var c := Connections(layers, serialLayers, i, p);
    assert NearestProducer(layers, serialLayers, i, layers[i].bottom[c[0].index]) == p;
  }

  /** The hypotheses of ConnectPrefixFindsFirstUses. */
  ghost predicate OwnedClaims(bottom: seq<string>, owners: seq<int>, tops: set<string>, used: set<string>, p: int)
    requires |bottom| == |owners|
  {
    (forall k :: 0 <= k < |bottom| ==> (bottom[k] in used <==> owners[k] > p)) &&
    (forall k :: 0 <= k < |bottom| && bottom[k] in tops ==> owners[k] >= p) &&
    (forall k :: 0 <= k < |bottom| && owners[k] == p ==> bottom[k] in tops)
  }

  /** A bottom the k-loop skips as already claimed is not a first use owned by `p`. */
  lemma ClaimedIsNoFirstUse(bottom: seq<string>, owners: seq<int>, tops: set<string>, used: set<string>, p: int, n: nat)
    requires 0 < n <= |bottom| == |owners|
    requires OwnedClaims(bottom, owners, tops, used, p)
    requires bottom[n - 1] in used + TopsAmong(bottom, tops, n - 1)
    ensures !(FirstOccurrence(bottom, n - 1) && owners[n - 1] == p)
  {
    if bottom[n - 1] !in used {
      assert bottom[n - 1] in bottom[..n - 1];
    }
  }

  /** A bottom the k-loop connects is a first use owned by `p`. */
  lemma FreshIsFirstUse(bottom: seq<string>, owners: seq<int>, tops: set<string>, used: set<string>, p: int, n: nat)
    requires 0 < n <= |bottom| == |owners|
    requires OwnedClaims(bottom, owners, tops, used, p)
    requires bottom[n - 1] !in used + TopsAmong(bottom, tops, n - 1) && bottom[n - 1] in tops
    ensures FirstOccurrence(bottom, n - 1) && owners[n - 1] == p
  {
    var t := TopsAmong(bottom, tops, n - 1);
    forall j | 0 <= j < n - 1
      ensures bottom[j] != bottom[n - 1]
    {
      assert bottom[j] in tops ==> bottom[j] in t;
    }
  }

  /** A bottom that is neither claimed nor a top of `p` is not a first use owned by `p`. */
  lemma ForeignIsNoFirstUse(bottom: seq<string>, owners: seq<int>, tops: set<string>, used: set<string>, p: int, n: nat)
    requires 0 < n <= |bottom| == |owners|
    requires OwnedClaims(bottom, owners, tops, used, p)
    requires bottom[n - 1] !in tops
    ensures owners[n - 1] != p
  {
  }

  /** The first `n` steps of the k-loop connect the first uses owned by `p` and claim the tops of `p` seen so far. */
  predicate ConnectsFirstUses(bottom: seq<string>, owners: seq<int>, tops: set<string>, used: set<string>, p: int, n: nat)
    requires n <= |bottom| == |owners|
  {
    ConnectPrefix(bottom, tops, used, n) == (FirstUses(bottom, owners, p, n), used + TopsAmong(bottom, tops, n))
  }

  /** One step of the k-loop when bottom `n - 1` is not connected. */
  lemma ConnectSkipStep(bottom: seq<string>, owners: seq<int>, tops: set<string>, used: set<string>, p: int, n: nat)
    requires 0 < n <= |bottom| == |owners|
    requires ConnectsFirstUses(bottom, owners, tops, used, p, n - 1)
    requires bottom[n - 1] in used + TopsAmong(bottom, tops, n - 1) || bottom[n - 1] !in tops
    requires !(FirstOccurrence(bottom, n - 1) && owners[n - 1] == p)
    ensures ConnectsFirstUses(bottom, owners, tops, used, p, n)
  {
    var t := TopsAmong(bottom, tops, n - 1);
    assert TopsAmong(bottom, tops, n) == if bottom[n - 1] in tops then t + {bottom[n - 1]} else t;
    assert used + TopsAmong(bottom, tops, n) == used + t;
    assert FirstUses(bottom, owners, p, n) == FirstUses(bottom, owners, p, n - 1);
  }

  /** One step of the k-loop when bottom `n - 1` is connected. */
  lemma ConnectTakeStep(bottom: seq<string>, owners: seq<int>, tops: set<string>, used: set<string>, p: int, n: nat)
    requires 0 < n <= |bottom| == |owners|
    requires ConnectsFirstUses(bottom, owners, tops, used, p, n - 1)
    requires bottom[n - 1] !in used + TopsAmong(bottom, tops, n - 1) && bottom[n - 1] in tops
    requires FirstOccurrence(bottom, n - 1) && owners[n - 1] == p
    ensures ConnectsFirstUses(bottom, owners, tops, used, p, n)
  {
    var t := TopsAmong(bottom, tops, n - 1);
    assert TopsAmong(bottom, tops, n) == t + {bottom[n - 1]};
    assert used + TopsAmong(bottom, tops, n) == (used + t) + {bottom[n - 1]};
  }

  /**
   * The k-loop finds the first uses owned by `p`, given that the names
   * already claimed are those owned by a later layer and that `tops` holds
   * every name `p` owns and no name owned by an earlier layer.
   */
  lemma {:induction false} ConnectPrefixFindsFirstUses(
    bottom: seq<string>, owners: seq<int>, tops: set<string>, used: set<string>, p: int, n: nat)
    requires n <= |bottom| == |owners|
    requires OwnedClaims(bottom, owners, tops, used, p)
    ensures ConnectsFirstUses(bottom, owners, tops, used, p, n)
  {
    if n > 0 {
      ConnectPrefixFindsFirstUses(bottom, owners, tops, used, p, n - 1);
      if bottom[n - 1] in used + TopsAmong(bottom, tops, n - 1) {
        ClaimedIsNoFirstUse(bottom, owners, tops, used, p, n);
        ConnectSkipStep(bottom, owners, tops, used, p, n);
      } else if bottom[n - 1] in tops {
        FreshIsFirstUse(bottom, owners, tops, used, p, n);
        ConnectTakeStep(bottom, owners, tops, used, p, n);
      } else {
        ForeignIsNoFirstUse(bottom, owners, tops, used, p, n);
        ConnectSkipStep(bottom, owners, tops, used, p, n);
      }
    } else {
      assert used + TopsAmong(bottom, tops, 0) == used;
    }
  }

  /** The k-loop against producer `p` finds exactly the connections of `p`. */
  lemma ConnectPrefixFindsConnections(layers: seq<LayerParameter>, serialLayers: set<string>, i: nat, p: nat)
    requires p < i < |layers|
    requires layers[p].name !in serialLayers
    ensures ConnectPrefix(layers[i].bottom, TopSet(layers[p]), UsedAbove(layers, serialLayers, i, p + 1), |layers[i].bottom|)
         == (Connections(layers, serialLayers, i, p),
             UsedAbove(layers, serialLayers, i, p + 1) + TopsAmong(layers[i].bottom, TopSet(layers[p]), |layers[i].bottom|))
  {
    var b := layers[i].bottom;
    var owners := Owners(layers, serialLayers, i);
    var tops := TopSet(layers[p]);
    forall k | 0 <= k < |b| && b[k] in tops
      ensures owners[k] >= p
    {
      assert IsProducer(layers, serialLayers, p, b[k]);
    }
    forall k | 0 <= k < |b| && owners[k] == p
      ensures b[k] in tops
    {
      assert IsProducer(layers, serialLayers, p, b[k]);
    }
    assert OwnedClaims(b, owners, tops, UsedAbove(layers, serialLayers, i, p + 1), p);
    ConnectPrefixFindsFirstUses(b, owners, tops, UsedAbove(layers, serialLayers, i, p + 1), p, |b|);
  }

  /** After producer `p` is visited, the claimed names are those with a producer at `p` or later. */
  lemma UsedAfterVisit(layers: seq<LayerParameter>, serialLayers: set<string>, i: nat, p: nat)
    requires p < i < |layers|
    requires layers[p].name !in serialLayers
    ensures UsedAbove(layers, serialLayers, i, p + 1) + TopsAmong(layers[i].bottom, TopSet(layers[p]), |layers[i].bottom|)
         == UsedAbove(layers, serialLayers, i, p)
  {
    var b := layers[i].bottom;
    assert b[..|b|] == b;
    forall x | x in TopsAmong(b, TopSet(layers[p]), |b|)
      ensures NearestProducer(layers, serialLayers, i, x) >= p
    {
      assert IsProducer(layers, serialLayers, p, x);
    }
    forall x | x in UsedAbove(layers, serialLayers, i, p)
      ensures x in UsedAbove(layers, serialLayers, i, p + 1) || x in TopsAmong(b, TopSet(layers[p]), |b|)
    {
      if NearestProducer(layers, serialLayers, i, x) == p {
        assert IsProducer(layers, serialLayers, p, x);
      }
    }
  }

  /** A serial layer is nobody's producer. */
  lemma SerialLayerHasNoConnections(layers: seq<LayerParameter>, serialLayers: set<string>, i: nat, p: nat)
    requires p < i < |layers|
    requires layers[p].name in serialLayers
    ensures Connections(layers, serialLayers, i, p) == []
    ensures UsedAbove(layers, serialLayers, i, p + 1) == UsedAbove(layers, serialLayers, i, p)
  {
    if Connections(layers, serialLayers, i, p) != [] {
      NonEmptyConnectionsProducer(layers, serialLayers, i, p);
      assert false;
    }
    forall x | x in UsedAbove(layers, serialLayers, i, p)
      ensures NearestProducer(layers, serialLayers, i, x) >= p + 1
    {
    }
  }

  lemma GathersOfAppend(layers: seq<LayerParameter>, serialLayers: set<string>, i: nat, ps: seq<nat>, p: nat)
    requires i < |layers| && p < |layers|
    requires forall m :: 0 <= m < |ps| ==> ps[m] < |layers|
    ensures GathersOf(layers, serialLayers, i, ps + [p])
         == GathersOf(layers, serialLayers, i, ps) +
            [GatherLayer(layers[p].name, layers[i].name, Connections(layers, serialLayers, i, p))]
  {
  }

  // ---------------------------------------------------------------------------
  // The backward scan

  /** The scan state `s` after visiting layers `i - 1` down to `lo`, in closed form. */
  ghost predicate ScanMatches(layers: seq<LayerParameter>, serialLayers: set<string>, i: nat, lo: nat, s: ScanState)
    requires lo <= i < |layers|
  {
    s.used == UsedAbove(layers, serialLayers, i, lo) &&
    s.gathers == GathersOf(layers, serialLayers, i, Producers(layers, serialLayers, i, lo)) &&
    UpdatesExact(layers, serialLayers, i, lo, s.updates)
  }

  /** Visiting a serial layer keeps the closed form. */
  lemma ScanStepSerial(layers: seq<LayerParameter>, serialLayers: set<string>, i: nat, lo: nat)
    requires lo < i < |layers|
    requires layers[lo].name in serialLayers
    requires ScanMatches(layers, serialLayers, i, lo + 1, ScanFrom(layers, serialLayers, i, lo + 1))
    ensures ScanMatches(layers, serialLayers, i, lo, ScanFrom(layers, serialLayers, i, lo))
  {
    var s := ScanFrom(layers, serialLayers, i, lo + 1);
    assert ScanFrom(layers, serialLayers, i, lo) == s;
    SerialLayerHasNoConnections(layers, serialLayers, i, lo);
    assert Producers(layers, serialLayers, i, lo) == Producers(layers, serialLayers, i, lo + 1);
    NoNewUpdates(layers[i].bottom, Owners(layers, serialLayers, i), lo, s.updates);
  }

  /** Visiting a non-serial layer that produces nothing the consumer reads keeps the closed form. */
  lemma ScanStepIdle(layers: seq<LayerParameter>, serialLayers: set<string>, i: nat, lo: nat)
    requires lo < i < |layers|
    requires layers[lo].name !in serialLayers
    requires Connections(layers, serialLayers, i, lo) == []
    requires ScanMatches(layers, serialLayers, i, lo + 1, ScanFrom(layers, serialLayers, i, lo + 1))
    ensures ScanMatches(layers, serialLayers, i, lo, ScanFrom(layers, serialLayers, i, lo))
  {
    var s := ScanFrom(layers, serialLayers, i, lo + 1);
    ConnectPrefixFindsConnections(layers, serialLayers, i, lo);
    UsedAfterVisit(layers, serialLayers, i, lo);
    assert ScanFrom(layers, serialLayers, i, lo) == s.(used := UsedAbove(layers, serialLayers, i, lo));
    assert Producers(layers, serialLayers, i, lo) == Producers(layers, serialLayers, i, lo + 1);
    NoNewUpdates(layers[i].bottom, Owners(layers, serialLayers, i), lo, s.updates);
  }

  /** Visiting a producer of the consumer appends its gather and keeps the closed form. */
  lemma ScanStepGather(layers: seq<LayerParameter>, serialLayers: set<string>, i: nat, lo: nat)
    requires lo < i < |layers|
    requires layers[lo].name !in serialLayers
    requires Connections(layers, serialLayers, i, lo) != []
    requires ScanMatches(layers, serialLayers, i, lo + 1, ScanFrom(layers, serialLayers, i, lo + 1))
    ensures ScanMatches(layers, serialLayers, i, lo, ScanFrom(layers, serialLayers, i, lo))
  {
    var s := ScanFrom(layers, serialLayers, i, lo + 1);
    var b := layers[i].bottom;
    var owners := Owners(layers, serialLayers, i);
    var c := Connections(layers, serialLayers, i, lo);
    ConnectPrefixFindsConnections(layers, serialLayers, i, lo);
    UsedAfterVisit(layers, serialLayers, i, lo);
    var g := GatherLayer(layers[lo].name, layers[i].name, c);
    assert ScanFrom(layers, serialLayers, i, lo)
        == ScanState(s.gathers + [g], s.updates + UpdatesFor(c, g.top, |c|), UsedAbove(layers, serialLayers, i, lo));
    var ps := Producers(layers, serialLayers, i, lo + 1);
    assert Producers(layers, serialLayers, i, lo) == ps + [lo];
    GathersOfAppend(layers, serialLayers, i, ps, lo);
    assert GatherTopsFor(b, owners, lo, g.top);
    NewUpdates(b, owners, lo, s.updates, g.top);
  }

  /** The backward scan for consumer `i`, down to `lo`, in closed form. */
  lemma {:induction false} ScanFromIsReference(layers: seq<LayerParameter>, serialLayers: set<string>, i: nat, lo: nat)
    requires lo <= i < |layers|
    ensures ScanMatches(layers, serialLayers, i, lo, ScanFrom(layers, serialLayers, i, lo))
    decreases i - lo
  {
    if lo == i {
      assert UsedAbove(layers, serialLayers, i, lo) == {};
      assert UpdatesExact(layers, serialLayers, i, lo, []);
    } else {
      ScanFromIsReference(layers, serialLayers, i, lo + 1);
      if layers[lo].name in serialLayers {
        ScanStepSerial(layers, serialLayers, i, lo);
      } else if Connections(layers, serialLayers, i, lo) == [] {
        ScanStepIdle(layers, serialLayers, i, lo);
      } else {
        ScanStepGather(layers, serialLayers, i, lo);
      }
    }
  }

  /** When layer `lo` owns nothing, the updates recorded so far already cover everything from `lo` on. */
  lemma NoNewUpdates(bottom: seq<string>, owners: seq<int>, lo: int, u: seq<BlobRef>)
    requires |bottom| == |owners|
    requires FirstUses(bottom, owners, lo, |bottom|) == []
    requires UpdatesCover(bottom, owners, lo + 1, u)
    ensures UpdatesCover(bottom, owners, lo, u)
  {
    forall k | 0 <= k < |bottom| && FirstOccurrence(bottom, k) && owners[k] >= lo
      ensures owners[k] >= lo + 1
    {
      assert BlobRef(k, bottom[k]) !in FirstUses(bottom, owners, lo, |bottom|);
    }
  }

  /** The hypotheses of NewUpdates: `gatheredTops` are the tops of the gather for owner `lo`. */
  ghost predicate GatherTopsFor(bottom: seq<string>, owners: seq<int>, lo: int, gatheredTops: seq<string>)
    requires |bottom| == |owners|
  {
    var c := FirstUses(bottom, owners, lo, |bottom|);
    |gatheredTops| == |c| &&
    forall m :: 0 <= m < |c| ==> gatheredTops[m] == GatheredName(c[m].name)
  }

  lemma NewUpdatesSound(bottom: seq<string>, owners: seq<int>, lo: int, u: seq<BlobRef>, gatheredTops: seq<string>)
    requires |bottom| == |owners|
    requires UpdatesSound(bottom, owners, lo + 1, u)
    requires GatherTopsFor(bottom, owners, lo, gatheredTops)
    ensures var c := FirstUses(bottom, owners, lo, |bottom|);
            UpdatesSound(bottom, owners, lo, u + UpdatesFor(c, gatheredTops, |c|))
  {
    var c := FirstUses(bottom, owners, lo, |bottom|);
    var v := UpdatesFor(c, gatheredTops, |c|);
    var w := u + v;
    forall m | 0 <= m < |w|
      ensures w[m].index < |bottom| && w[m].name == GatheredName(bottom[w[m].index]) &&
              FirstOccurrence(bottom, w[m].index) && owners[w[m].index] >= lo
    {
      if m >= |u| {
        assert w[m] == v[m - |u|];
      }
    }
  }

  lemma NewUpdatesDistinct(bottom: seq<string>, owners: seq<int>, lo: int, u: seq<BlobRef>, gatheredTops: seq<string>)
    requires |bottom| == |owners|
    requires UpdatesSound(bottom, owners, lo + 1, u) && UpdatesDistinct(u)
    requires GatherTopsFor(bottom, owners, lo, gatheredTops)
    ensures var c := FirstUses(bottom, owners, lo, |bottom|);
            UpdatesDistinct(u + UpdatesFor(c, gatheredTops, |c|))
  {
    var c := FirstUses(bottom, owners, lo, |bottom|);
    var v := UpdatesFor(c, gatheredTops, |c|);
    var w := u + v;
    forall m, m' | 0 <= m < m' < |w|
      ensures w[m].index != w[m'].index
    {
      if m >= |u| {
        assert w[m] == v[m - |u|] && w[m'] == v[m' - |u|];
      } else if m' >= |u| {
        assert w[m'] == v[m' - |u|];
      }
    }
  }

  lemma NewUpdatesComplete(bottom: seq<string>, owners: seq<int>, lo: int, u: seq<BlobRef>, gatheredTops: seq<string>)
    requires |bottom| == |owners|
    requires UpdatesComplete(bottom, owners, lo + 1, u)
    requires GatherTopsFor(bottom, owners, lo, gatheredTops)
    ensures var c := FirstUses(bottom, owners, lo, |bottom|);
            UpdatesComplete(bottom, owners, lo, u + UpdatesFor(c, gatheredTops, |c|))
  {
    var c := FirstUses(bottom, owners, lo, |bottom|);
    var v := UpdatesFor(c, gatheredTops, |c|);
    var w := u + v;
    forall k | 0 <= k < |bottom| && FirstOccurrence(bottom, k) && owners[k] >= lo
      ensures exists m :: 0 <= m < |w| && w[m].index == k
    {
      if owners[k] == lo {
        assert BlobRef(k, bottom[k]) in c;
        var m :| 0 <= m < |c| && c[m] == BlobRef(k, bottom[k]);
        assert w[|u| + m] == v[m];
      } else {
        var m :| 0 <= m < |u| && u[m].index == k;
        assert w[m] == u[m];
      }
    }
  }

  /** The updates recorded for the gather of owner `lo` extend the covering updates down to `lo`. */
  lemma NewUpdates(bottom: seq<string>, owners: seq<int>, lo: int, u: seq<BlobRef>, gatheredTops: seq<string>)
    requires |bottom| == |owners|
    requires UpdatesCover(bottom, owners, lo + 1, u)
    requires GatherTopsFor(bottom, owners, lo, gatheredTops)
    ensures var c := FirstUses(bottom, owners, lo, |bottom|);
            UpdatesCover(bottom, owners, lo, u + UpdatesFor(c, gatheredTops, |c|))
  {
    NewUpdatesSound(bottom, owners, lo, u, gatheredTops);
    NewUpdatesDistinct(bottom, owners, lo, u, gatheredTops);
    NewUpdatesComplete(bottom, owners, lo, u, gatheredTops);
  }

  // ---------------------------------------------------------------------------
  // Rewiring the consumer

  /** Writing updates with distinct indices sets exactly those bottoms. */
  lemma {:induction false} ApplyUpdatesWrites(bottom: seq<string>, u: seq<BlobRef>, n: nat)
    requires n <= |u|
    requires forall m :: 0 <= m < |u| ==> u[m].index < |bottom|
    requires forall m, m' :: 0 <= m < m' < |u| ==> u[m].index != u[m'].index
    ensures forall m :: 0 <= m < n ==> ApplyUpdates(bottom, u, n)[u[m].index] == u[m].name
    ensures forall k :: 0 <= k < |bottom| && (forall m :: 0 <= m < n ==> u[m].index != k) ==>
              ApplyUpdates(bottom, u, n)[k] == bottom[k]
  {
    if n > 0 {
      ApplyUpdatesWrites(bottom, u, n - 1);
    }
  }

  /** The rewired consumer reads `gathered_<name>` exactly at its bridged bottoms. */
  lemma RewiredBottoms(layers: seq<LayerParameter>, serialLayers: set<string>, i: nat)
    requires i < |layers|
    ensures var u := ScanFrom(layers, serialLayers, i, 0).updates;
            ApplyUpdates(layers[i].bottom, u, |u|) == ReferenceBottoms(layers, serialLayers, i)
  {
    var b := layers[i].bottom;
    var u := ScanFrom(layers, serialLayers, i, 0).updates;
    ScanFromIsReference(layers, serialLayers, i, 0);
    ApplyUpdatesWrites(b, u, |u|);
    var r := ApplyUpdates(b, u, |u|);
    forall k | 0 <= k < |b|
      ensures r[k] == ReferenceBottoms(layers, serialLayers, i)[k]
    {
      if Matched(layers, serialLayers, i, k) {
        var m :| 0 <= m < |u| && u[m].index == k;
      } else {
        forall m | 0 <= m < |u|
          ensures u[m].index != k
        {
        }
      }
    }
  }

  // ---------------------------------------------------------------------------
  // The rewrite as a whole

  /** The gather layers inserted in front of layer `i`: one per producer, nearest first. */
  function GathersBefore(layers: seq<LayerParameter>, serialLayers: set<string>, i: nat): seq<LayerParameter>
    requires i < |layers|
  {
    if NeedsGathers(layers[i], serialLayers)
    then GathersOf(layers, serialLayers, i, Producers(layers, serialLayers, i, 0))
    else []
  }

  /** Layer `i` as emitted: unchanged, or with its bridged bottoms renamed. */
  function EmittedLayer(layers: seq<LayerParameter>, serialLayers: set<string>, i: nat): LayerParameter
    requires i < |layers|
  {
    if NeedsGathers(layers[i], serialLayers)
    then layers[i].(bottom := ReferenceBottoms(layers, serialLayers, i))
    else layers[i]
  }

  /**
   * What the rewrite emits for layer `i`: the layer unchanged when it needs
   * no gathers; otherwise one gather per producer (nearest first) followed
   * by the layer with its bridged bottoms renamed.
   */
  lemma BlockContents(layers: seq<LayerParameter>, serialLayers: set<string>, i: nat)
    requires i < |layers|
    ensures Block(layers, serialLayers, i)
         == GathersBefore(layers, serialLayers, i) + [EmittedLayer(layers, serialLayers, i)]
  {
    if NeedsGathers(layers[i], serialLayers) {
      ScanFromIsReference(layers, serialLayers, i, 0);
      RewiredBottoms(layers, serialLayers, i);
    }
  }

  /** One more layer appends its block to the output. */
  lemma RewritePrefixUnfold(layers: seq<LayerParameter>, serialLayers: set<string>, i: nat)
    requires i < |layers|
    ensures RewritePrefix(layers, serialLayers, i + 1)
         == RewritePrefix(layers, serialLayers, i) + Block(layers, serialLayers, i)
  {
  }

  /** The output for the first `n` layers is a prefix of the output for the first `n'`. */
  lemma {:induction false} RewritePrefixGrows(layers: seq<LayerParameter>, serialLayers: set<string>, n: nat, n': nat)
    requires n <= n' <= |layers|
    ensures |RewritePrefix(layers, serialLayers, n)| <= |RewritePrefix(layers, serialLayers, n')|
    ensures RewritePrefix(layers, serialLayers, n')[..|RewritePrefix(layers, serialLayers, n)|]
         == RewritePrefix(layers, serialLayers, n)
    decreases n' - n
  {
    var a := RewritePrefix(layers, serialLayers, n);
    if n == n' {
      assert a[..|a|] == a;
    } else {
      var m: nat := n' - 1;
      RewritePrefixGrows(layers, serialLayers, n, m);
      RewritePrefixUnfold(layers, serialLayers, m);
      PrefixOfAppend(a, RewritePrefix(layers, serialLayers, m), Block(layers, serialLayers, m));
      assert m + 1 == n';
    }
  }

  lemma PrefixOfAppend<T>(a: seq<T>, b: seq<T>, c: seq<T>)
    requires |a| <= |b| && b[..|a|] == a
    ensures (b + c)[..|a|] == a
  {
    assert (b + c)[..|a|] == b[..|a|];
  }

  lemma SliceOfPrefix<T>(r: seq<T>, p: seq<T>, g: seq<T>, e: T)
    requires |p| + |g| + 1 <= |r| && r[..|p| + |g| + 1] == p + (g + [e])
    ensures r[|p|..|p| + |g| + 1] == g + [e]
    ensures r[|p| + |g|] == e
  {
    assert r[|p|..|p| + |g| + 1] == (p + (g + [e]))[|p|..];
    assert r[|p| + |g|] == (p + (g + [e]))[|p| + |g|];
  }

  /** The output position just after the block of layer `i - 1`. */
  function BlockStart(layers: seq<LayerParameter>, serialLayers: set<string>, i: nat): nat
    requires i <= |layers|
  {
    |RewritePrefix(layers, serialLayers, i)|
  }

  /**
   * Every layer's block sits in the output after the blocks of all earlier
   * layers, so every original layer is emitted once and in the original order.
   */
  lemma BlocksInOrder(layers: seq<LayerParameter>, serialLayers: set<string>, i: nat)
    requires i < |layers|
    ensures BlockStart(layers, serialLayers, i) < BlockStart(layers, serialLayers, i + 1) <= |Rewritten(layers, serialLayers)|
    ensures Rewritten(layers, serialLayers)[BlockStart(layers, serialLayers, i)..BlockStart(layers, serialLayers, i + 1)]
         == GathersBefore(layers, serialLayers, i) + [EmittedLayer(layers, serialLayers, i)]
    ensures Rewritten(layers, serialLayers)[BlockStart(layers, serialLayers, i + 1) - 1]
         == EmittedLayer(layers, serialLayers, i)
  {
    RewritePrefixGrows(layers, serialLayers, i + 1, |layers|);
    BlockContents(layers, serialLayers, i);
    var r := Rewritten(layers, serialLayers);
    var p := RewritePrefix(layers, serialLayers, i);
    var g := GathersBefore(layers, serialLayers, i);
    var e := EmittedLayer(layers, serialLayers, i);
    RewritePrefixUnfold(layers, serialLayers, i);
    assert RewritePrefix(layers, serialLayers, i + 1) == p + (g + [e]);
    SliceOfPrefix(r, p, g, e);
  }

  /** The number of gather layers inserted for the first `n` layers. */
  function GatherCount(layers: seq<LayerParameter>, serialLayers: set<string>, n: nat): nat
    requires n <= |layers|
  {
    if n == 0 then 0
    else GatherCount(layers, serialLayers, n - 1) + |GathersBefore(layers, serialLayers, n - 1)|
  }

  /** The block of layer `i` holds its gathers and the layer itself. */
  lemma BlockLength(layers: seq<LayerParameter>, serialLayers: set<string>, i: nat)
    requires i < |layers|
    ensures |Block(layers, serialLayers, i)| == |GathersBefore(layers, serialLayers, i)| + 1
  {
    BlockContents(layers, serialLayers, i);
  }

  /** Processing layer `i` appends its gathers and the layer itself. */
  lemma RewritePrefixStep(layers: seq<LayerParameter>, serialLayers: set<string>, i: nat)
    requires i < |layers|
    ensures |RewritePrefix(layers, serialLayers, i + 1)|
         == |RewritePrefix(layers, serialLayers, i)| + |GathersBefore(layers, serialLayers, i)| + 1
  {
    BlockLength(layers, serialLayers, i);
  }

  /** The output has every input layer plus one layer per inserted gather. */
  lemma {:induction false} RewrittenLength(layers: seq<LayerParameter>, serialLayers: set<string>, n: nat)
    requires n <= |layers|
    ensures |RewritePrefix(layers, serialLayers, n)| == n + GatherCount(layers, serialLayers, n)
  {
    if n > 0 {
      var m: nat := n - 1;
      RewrittenLength(layers, serialLayers, m);
      RewritePrefixStep(layers, serialLayers, m);
      assert GatherCount(layers, serialLayers, m + 1)
          == GatherCount(layers, serialLayers, m) + |GathersBefore(layers, serialLayers, m)|;
      assert n == m + 1;
    }
  }

  /** When no layer needs gathers the rewrite changes nothing. */
  lemma {:induction false} NothingToGatherIsIdentity(layers: seq<LayerParameter>, serialLayers: set<string>, n: nat)
    requires n <= |layers|
    requires forall i :: 0 <= i < |layers| ==> !NeedsGathers(layers[i], serialLayers)
    ensures RewritePrefix(layers, serialLayers, n) == layers[..n]
  {
    if n > 0 {
      NothingToGatherIsIdentity(layers, serialLayers, n - 1);
      assert layers[..n] == layers[..n - 1] + [layers[n - 1]];
    }
  }

  /** With no serial layers, the output equals the input. */
  lemma EmptySerialSetIsIdentity(layers: seq<LayerParameter>)
    ensures Rewritten(layers, {}) == layers
  {
    NothingToGatherIsIdentity(layers, {}, |layers|);
    assert layers[..|layers|] == layers;
  }

  /** When every layer has an exempt type, the output equals the input. */
  lemma ExemptTypesAreIdentity(layers: seq<LayerParameter>, serialLayers: set<string>)
    requires forall i :: 0 <= i < |layers| ==> layers[i].layerType in ExemptTypes
    ensures Rewritten(layers, serialLayers) == layers
  {
    NothingToGatherIsIdentity(layers, serialLayers, |layers|);
    assert layers[..|layers|] == layers;
  }
}

module InsertGathersExamples {
  import opened InsertGathers

  function Conv(name: string, top: string): LayerParameter
  {
    LayerParameter(name, "Convolution", [], [top], LayerOptions([]))
  }

  /** Two parallel layers writing `x` and `y`, then a serial layer reading both. */
  function TwoProducerNet(): seq<LayerParameter>
  {
    [Conv("A", "x"), Conv("B", "y"), LayerParameter("L", "InnerProduct", ["x", "y"], ["z"], LayerOptions([]))]
  }

  function GatherFromB(): LayerParameter
  {
    LayerParameter("gather_B_to_L", "MPIGather", ["y"], ["gathered_y"], LayerOptions([]))
  }

  function GatherFromA(): LayerParameter
  {
    LayerParameter("gather_A_to_L", "MPIGather", ["x"], ["gathered_x"], LayerOptions([]))
  }

  lemma VisitB()
    ensures VisitProducer(TwoProducerNet()[2], TwoProducerNet()[1], ScanState([], [], {}))
         == ScanState([GatherFromB()], [BlobRef(1, "gathered_y")], {"y"})
  {
    var l := TwoProducerNet()[2];
    assert TopSet(TwoProducerNet()[1]) == {"y"};
    assert l.bottom[0] == "x" && l.bottom[1] == "y" && "x" != "y";
    assert ConnectPrefix(l.bottom, {"y"}, {}, 1) == ([], {});
    assert {} + {"y"} == {"y"};
    assert [] + [BlobRef(1, "y")] == [BlobRef(1, "y")];
    assert ConnectPrefix(l.bottom, {"y"}, {}, 2) == ([BlobRef(1, "y")], {"y"});
    assert GatherLayerName("B", "L") == "gather_B_to_L";
    assert Names([BlobRef(1, "y")]) == ["y"];
    assert GatheredName("y") == "gathered_y";
    assert GatherLayer("B", "L", [BlobRef(1, "y")]) == GatherFromB();
  }

  /** Against `A`, the k-loop connects `x`; `y` is already claimed by `B`. */
  lemma ConnectA()
    ensures ConnectPrefix(["x", "y"], {"x"}, {"y"}, 2) == ([BlobRef(0, "x")], {"y", "x"})
  {
    assert {"y"} + {"x"} == {"y", "x"};
    assert [] + [BlobRef(0, "x")] == [BlobRef(0, "x")];
    assert ConnectPrefix(["x", "y"], {"x"}, {"y"}, 1) == ([BlobRef(0, "x")], {"y", "x"});
  }

  lemma VisitA()
    ensures VisitProducer(TwoProducerNet()[2], TwoProducerNet()[0],
                          ScanState([GatherFromB()], [BlobRef(1, "gathered_y")], {"y"}))
         == ScanState([GatherFromB(), GatherFromA()],
                      [BlobRef(1, "gathered_y"), BlobRef(0, "gathered_x")], {"y", "x"})
  {
    var l := TwoProducerNet()[2];
    assert TopSet(TwoProducerNet()[0]) == {"x"};
    assert l.bottom == ["x", "y"];
    ConnectA();
    GatherA();
  }

  lemma GatherA()
    ensures GatherLayer("A", "L", [BlobRef(0, "x")]) == GatherFromA()
  {
    assert GatherLayerName("A", "L") == "gather_A_to_L";
    assert Names([BlobRef(0, "x")]) == ["x"];
    assert GatheredName("x") == "gathered_x";
  }

  lemma ScanTwoProducers()
    ensures ScanFrom(TwoProducerNet(), {"L"}, 2, 0)
         == ScanState([GatherFromB(), GatherFromA()],
                      [BlobRef(1, "gathered_y"), BlobRef(0, "gathered_x")], {"y", "x"})
  {
    var layers := TwoProducerNet();
    VisitB();
    VisitA();
    assert "B" !in {"L"} && "A" !in {"L"};
    assert ScanFrom(layers, {"L"}, 2, 2) == ScanState([], [], {});
    assert ScanFrom(layers, {"L"}, 2, 1) == ScanState([GatherFromB()], [BlobRef(1, "gathered_y")], {"y"});
  }

  lemma BlockOfSerialLayer()
    ensures Block(TwoProducerNet(), {"L"}, 2)
         == [GatherFromB(), GatherFromA(),
             LayerParameter("L", "InnerProduct", ["gathered_x", "gathered_y"], ["z"], LayerOptions([]))]
  {
    var l := TwoProducerNet()[2];
    ScanTwoProducers();
    var u := [BlobRef(1, "gathered_y"), BlobRef(0, "gathered_x")];
    assert ApplyUpdates(l.bottom, u, 1) == ["x", "gathered_y"];
    assert ApplyUpdates(l.bottom, u, 2) == ["gathered_x", "gathered_y"];
    assert NeedsGathers(l, {"L"});
  }

  /**
   * A serial layer reading the outputs of two parallel layers gets one gather
   * per producer, the nearest producer first, and reads the gathered blobs.
   */
  lemma TwoProducers()
    ensures Rewritten(TwoProducerNet(), {"L"})
         == [Conv("A", "x"), Conv("B", "y"), GatherFromB(), GatherFromA(),
             LayerParameter("L", "InnerProduct", ["gathered_x", "gathered_y"], ["z"], LayerOptions([]))]
  {
    var layers, serial := TwoProducerNet(), {"L"};
    BlockOfSerialLayer();
    assert !NeedsGathers(layers[0], serial) && !NeedsGathers(layers[1], serial);
    assert RewritePrefix(layers, serial, 1) == [layers[0]];
    assert RewritePrefix(layers, serial, 2) == [layers[0], layers[1]];
  }

  /** A producer and a serial layer that reads its output twice. */
  function RepeatedBottomNet(): seq<LayerParameter>
  {
    [Conv("A", "x"), LayerParameter("L", "Eltwise", ["x", "x"], ["z"], LayerOptions([]))]
  }

  lemma ScanRepeatedBottom()
    ensures ScanFrom(RepeatedBottomNet(), {"L"}, 1, 0)
         == ScanState([GatherFromA()], [BlobRef(0, "gathered_x")], {"x"})
  {
    var layers := RepeatedBottomNet();
    var l := layers[1];
    assert TopSet(layers[0]) == {"x"};
    assert l.bottom[0] == "x" && l.bottom[1] == "x";
    assert {} + {"x"} == {"x"};
    assert [] + [BlobRef(0, "x")] == [BlobRef(0, "x")];
    assert ConnectPrefix(l.bottom, {"x"}, {}, 1) == ([BlobRef(0, "x")], {"x"});
    assert ConnectPrefix(l.bottom, {"x"}, {}, 2) == ([BlobRef(0, "x")], {"x"});
    assert GatherLayerName("A", "L") == "gather_A_to_L";
    assert Names([BlobRef(0, "x")]) == ["x"];
    assert GatheredName("x") == "gathered_x";
    assert GatherLayer("A", "L", [BlobRef(0, "x")]) == GatherFromA();
    assert "A" !in {"L"};
  }

  /** Only the first of two bottoms with the same name is rewired to the gathered blob. */
  lemma RepeatedBottom()
    ensures Rewritten(RepeatedBottomNet(), {"L"})
         == [Conv("A", "x"), GatherFromA(),
             LayerParameter("L", "Eltwise", ["gathered_x", "x"], ["z"], LayerOptions([]))]
  {
    var layers, serial := RepeatedBottomNet(), {"L"};
    var l := layers[1];
    ScanRepeatedBottom();
    assert ApplyUpdates(l.bottom, [BlobRef(0, "gathered_x")], 1) == ["gathered_x", "x"];
    assert NeedsGathers(l, serial) && !NeedsGathers(layers[0], serial);
    assert RewritePrefix(layers, serial, 1) == [layers[0]];
  }
}
