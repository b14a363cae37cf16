/**
 * Which boxes overlap: the pair loop of `buildOverlapSection` in apps/web/lib/overlay-publish-review.ts and
 * `describeOverlaps` in apps/web/components/overlay-placement-canvas.tsx.
 */
module PlacementOverlaps {
  import opened Wrappers
  import opened PlacementSnap

  /** The placed panels and the enabled layers, in that order. */
  datatype Panel = Panel(name: string, placement: Option<Box>)
  datatype Layer = Layer(name: string, enabled: bool, box: Box)
  datatype Labelled = Labelled(name: string, box: Box)

  function PlacedPanels(panels: seq<Panel>): seq<Labelled> {
    if panels == [] then []
    else
      var p := panels[|panels| - 1];
      PlacedPanels(panels[..|panels| - 1]) + (if p.placement.Some? then [Labelled(p.name, p.placement.value)] else [])
  }

  function EnabledLayers(layers: seq<Layer>): seq<Labelled> {
    if layers == [] then []
    else
      var l := layers[|layers| - 1];
      EnabledLayers(layers[..|layers| - 1]) + (if l.enabled then [Labelled(l.name, l.box)] else [])
  }

  function Reviewed(panels: seq<Panel>, layers: seq<Layer>): seq<Labelled> {
    PlacedPanels(panels) + EnabledLayers(layers)
  }

  /** One line of the review: the two boxes by position, and the rectangle they share. */
  datatype Overlap = Overlap(first: nat, second: nat, shared: Box)

  /** The order of the two nested loops. */
  predicate Before(a: Overlap, b: Overlap) { a.first < b.first || (a.first == b.first && a.second < b.second) }

  /** Every pair seen so far that shares a point has its line, and every line is such a pair; none is said twice. */
  ghost predicate Names(overlaps: seq<Overlap>, boxes: seq<Labelled>, first: int, second: int) {
    && (forall o :: o in overlaps ==>
          && o.first < o.second < |boxes| && (o.first < first || (o.first == first && o.second < second))
          && Intersect(boxes[o.first].box, boxes[o.second].box) == Some(o.shared))
    && (forall i, j :: 0 <= i < j < |boxes| && (i < first || (i == first && j < second)) ==>
          SharePoint(boxes[i].box, boxes[j].box) ==> exists o :: o in overlaps && o.first == i && o.second == j)
    && (forall k, l :: 0 <= k < l < |overlaps| ==> Before(overlaps[k], overlaps[l]))
  }

  /** The places of the elements chosen, in order. */
  function Places<T>(s: seq<T>, chosen: T -> bool): (at: seq<nat>)
    ensures forall k :: 0 <= k < |at| ==> at[k] < |s|
    ensures forall k, l :: 0 <= k < l < |at| ==> at[k] < at[l]
  {
    if s == [] then []
    else
      var before := Places(s[..|s| - 1], chosen);
      if chosen(s[|s| - 1]) then before + [|s| - 1] else before
  }

  /** Exactly those. */
  lemma {:induction false} PlacesIff<T>(s: seq<T>, chosen: T -> bool, i: nat)
    requires i < |s|
    ensures i in Places(s, chosen) <==> chosen(s[i])
  {
    var n := |s| - 1;
    var before := Places(s[..n], chosen);
    assert forall k :: 0 <= k < |before| ==> before[k] < n;
    assert i in before + [n] <==> i in before || i == n;
    if i < n {
      PlacesIff(s[..n], chosen, i);
    }
  }

  /** The panels that are placed, and the layers that are switched on, in their order. */
  function PanelsDrawn(panels: seq<Panel>): seq<nat> { Places(panels, IsPlaced) }

  function LayersDrawn(layers: seq<Layer>): seq<nat> { Places(layers, IsOn) }

  predicate IsPlaced(p: Panel) { p.placement.Some? }

  predicate IsOn(l: Layer) { l.enabled }

  lemma PlacesNext<T>(s: seq<T>, x: T, chosen: T -> bool)
    ensures Places(s + [x], chosen) == if chosen(x) then Places(s, chosen) + [|s|] else Places(s, chosen)
  {
    assert (s + [x])[..|s|] == s;
  }

  /** The boxes of the panels at those places, under their names; and likewise of layers. */
  ghost predicate BoxesOfPanels(boxes: seq<Labelled>, panels: seq<Panel>, at: seq<nat>) {
    && |boxes| == |at|
    && forall k :: 0 <= k < |at| ==>
         at[k] < |panels| && boxes[k].name == panels[at[k]].name && Some(boxes[k].box) == panels[at[k]].placement
  }

  ghost predicate BoxesOfLayers(boxes: seq<Labelled>, layers: seq<Layer>, at: seq<nat>) {
    && |boxes| == |at|
    && forall k :: 0 <= k < |at| ==>
         at[k] < |layers| && boxes[k].name == layers[at[k]].name && boxes[k].box == layers[at[k]].box
  }

  /** The boxes reviewed: first one for each placed panel, then one for each layer that is switched on. */
  ghost predicate AreDrawn(boxes: seq<Labelled>, panels: seq<Panel>, layers: seq<Layer>) {
    var n := |PanelsDrawn(panels)|;
    && n <= |boxes|
    && BoxesOfPanels(boxes[..n], panels, PanelsDrawn(panels))
    && BoxesOfLayers(boxes[n..], layers, LayersDrawn(layers))
  }

  lemma NextPanel(boxes: seq<Labelled>, panels: seq<Panel>, at: seq<nat>, p: Panel)
    requires BoxesOfPanels(boxes, panels, at)
    ensures BoxesOfPanels(boxes, panels + [p], at)
    ensures IsPlaced(p) ==>
      BoxesOfPanels(boxes + [Labelled(p.name, p.placement.value)], panels + [p], at + [|panels|])
  {
  }

  lemma NextLayer(boxes: seq<Labelled>, layers: seq<Layer>, at: seq<nat>, l: Layer)
    requires BoxesOfLayers(boxes, layers, at)
    ensures BoxesOfLayers(boxes, layers + [l], at)
    ensures BoxesOfLayers(boxes + [Labelled(l.name, l.box)], layers + [l], at + [|layers|])
  {
  }

  lemma PlacedPanelsNext(panels: seq<Panel>, p: Panel)
    ensures PlacedPanels(panels + [p])
         == if IsPlaced(p) then PlacedPanels(panels) + [Labelled(p.name, p.placement.value)] else PlacedPanels(panels)
  {
    assert (panels + [p])[..|panels|] == panels;
  }

  lemma EnabledLayersNext(layers: seq<Layer>, l: Layer)
    ensures EnabledLayers(layers + [l])
         == if IsOn(l) then EnabledLayers(layers) + [Labelled(l.name, l.box)] else EnabledLayers(layers)
  {
    assert (layers + [l])[..|layers|] == layers;
  }

  lemma PanelBoxesNext(panels: seq<Panel>, p: Panel)
    requires BoxesOfPanels(PlacedPanels(panels), panels, PanelsDrawn(panels))
    ensures BoxesOfPanels(PlacedPanels(panels + [p]), panels + [p], PanelsDrawn(panels + [p]))
  {
    NextPanel(PlacedPanels(panels), panels, PanelsDrawn(panels), p);
    PlacesNext(panels, p, IsPlaced);
    PlacedPanelsNext(panels, p);
  }

  lemma LayerBoxesNext(layers: seq<Layer>, l: Layer)
    requires BoxesOfLayers(EnabledLayers(layers), layers, LayersDrawn(layers))
    ensures BoxesOfLayers(EnabledLayers(layers + [l]), layers + [l], LayersDrawn(layers + [l]))
  {
    NextLayer(EnabledLayers(layers), layers, LayersDrawn(layers), l);
    PlacesNext(layers, l, IsOn);
    EnabledLayersNext(layers, l);
  }

  lemma {:induction false} PlacedPanelsAt(panels: seq<Panel>)
    ensures BoxesOfPanels(PlacedPanels(panels), panels, PanelsDrawn(panels))
  {
    if panels != [] {
      var n := |panels| - 1;
      PlacedPanelsAt(panels[..n]);
      PanelBoxesNext(panels[..n], panels[n]);
      assert panels == panels[..n] + [panels[n]];
    }
  }

  lemma {:induction false} EnabledLayersAt(layers: seq<Layer>)
    ensures BoxesOfLayers(EnabledLayers(layers), layers, LayersDrawn(layers))
  {
    if layers != [] {
      var n := |layers| - 1;
      EnabledLayersAt(layers[..n]);
      LayerBoxesNext(layers[..n], layers[n]);
      assert layers == layers[..n] + [layers[n]];
    }
  }

  lemma ReviewedAreDrawn(panels: seq<Panel>, layers: seq<Layer>)
    ensures AreDrawn(Reviewed(panels, layers), panels, layers)
  {
    PlacedPanelsAt(panels);
    EnabledLayersAt(layers);
    var a, b := PlacedPanels(panels), EnabledLayers(layers);
    assert (a + b)[..|a|] == a && (a + b)[|a|..] == b;
  }

  method CollectBoxes(panels: seq<Panel>, layers: seq<Layer>) returns (boxes: seq<Labelled>)
    ensures boxes == Reviewed(panels, layers)
    ensures AreDrawn(boxes, panels, layers)
  {
    ReviewedAreDrawn(panels, layers);
    boxes := [];
    for i := 0 to |panels|
      invariant boxes == PlacedPanels(panels[..i])
    {
      assert panels[..i + 1][..i] == panels[..i];
      if panels[i].placement.Some? {
        boxes := boxes + [Labelled(panels[i].name, panels[i].placement.value)];
      }
    }
    assert panels[..|panels|] == panels;
    for i := 0 to |layers|
      invariant boxes == PlacedPanels(panels) + EnabledLayers(layers[..i])
    {
      assert layers[..i + 1][..i] == layers[..i];
      if layers[i].enabled {
        boxes := boxes + [Labelled(layers[i].name, layers[i].box)];
      }
    }
    assert layers[..|layers|] == layers;
  }

  /** Each unordered pair of boxes that share a point is named once, and no other pair is. */
  method FindOverlaps(boxes: seq<Labelled>) returns (overlaps: seq<Overlap>)
    ensures Names(overlaps, boxes, |boxes|, 0)
  {
    overlaps := [];
    for first := 0 to |boxes|
      invariant Names(overlaps, boxes, first, first + 1)
    {
      var second := first + 1;
      while second < |boxes|
        invariant first < second <= |boxes|
        invariant Names(overlaps, boxes, first, second)
      {
        var shared := Intersect(boxes[first].box, boxes[second].box);
        IntersectIff(boxes[first].box, boxes[second].box);
        ghost var was := overlaps;
        if shared.Some? {
          overlaps := overlaps + [Overlap(first, second, shared.value)];
        }
        NamesNext(was, overlaps, boxes, first, second);
        second := second + 1;
      }
    }
  }

  lemma NamesNext(was: seq<Overlap>, overlaps: seq<Overlap>, boxes: seq<Labelled>, first: nat, second: nat)
    requires first < second < |boxes| && Names(was, boxes, first, second)
    requires var shared := Intersect(boxes[first].box, boxes[second].box);
      overlaps == if shared.Some? then was + [Overlap(first, second, shared.value)] else was
    ensures Names(overlaps, boxes, first, second + 1)
  {
    IntersectIff(boxes[first].box, boxes[second].box);
    assert was <= overlaps;
    assert forall o :: o in overlaps ==> o in was || (overlaps != [] && o == overlaps[|overlaps| - 1]);
    assert forall o :: o in was ==> o in overlaps;
    forall i, j | 0 <= i < j < |boxes| && (i < first || (i == first && j < second + 1))
      && SharePoint(boxes[i].box, boxes[j].box)
      ensures exists o :: o in overlaps && o.first == i && o.second == j
    {
      if i == first && j == second {
        assert overlaps[|overlaps| - 1] in overlaps;
      } else {
        var o :| o in was && o.first == i && o.second == j;
        assert o in overlaps;
      }
    }
    forall k, l | 0 <= k < l < |overlaps| ensures Before(overlaps[k], overlaps[l]) {
      if l == |was| {
        assert was[k] in was;
      }
    }
  }

  /** A box of the canvas, with its target's id. */
  datatype Target = Target(id: string, name: string, box: Box)

  /**
   * The message names, in the targets' order and each once, every other target the box shares a point with
   * among the first `n`, and no other: `at` holds their places.
   */
  ghost predicate Describes(
    hits: seq<(Target, Box)>, at: seq<nat>, id: string, box: Box, targets: seq<Target>, n: nat)
    requires n <= |targets|
  {
    && |hits| == |at|
    && (forall k :: 0 <= k < |at| ==> at[k] < n && hits[k].0 == targets[at[k]])
    && (forall k, l :: 0 <= k < l < |at| ==> at[k] < at[l])
    && (forall k :: 0 <= k < |hits| ==> hits[k].0.id != id && Intersect(box, hits[k].0.box) == Some(hits[k].1))
    && (forall i :: 0 <= i < n && targets[i].id != id && SharePoint(box, targets[i].box) ==> i in at)
  }

  /** The message of a drag. */
  method DescribeOverlaps(id: string, box: Box, targets: seq<Target>) returns (hits: seq<(Target, Box)>)
    ensures exists at :: Describes(hits, at, id, box, targets, |targets|)
  {
    hits := [];
    ghost var at: seq<nat> := [];
    for i := 0 to |targets|
      invariant Describes(hits, at, id, box, targets, i)
    {
      var other := targets[i];
      ghost var was := at;
      if other.id != id {
        var shared := Intersect(box, other.box);
        IntersectIff(box, other.box);
        if shared.Some? {
          hits := hits + [(other, shared.value)];
          at := at + [i];
          assert at[|was|] == i;
        }
      }
      assert forall k :: k in was ==> k in at;
    }
  }

  lemma PlaceOf(at: seq<nat>, i: nat) returns (k: nat)
    requires i in at
    ensures k < |at| && at[k] == i
  {
    k :| k < |at| && at[k] == i;
  }

  /** A target is named exactly when it is another one and shares a point with the box, and then at one place only. */
  lemma NamesTargetOnce(hits: seq<(Target, Box)>, at: seq<nat>, id: string, box: Box, targets: seq<Target>, i: nat)
    requires Describes(hits, at, id, box, targets, |targets|) && i < |targets|
    ensures (exists k :: 0 <= k < |at| && at[k] == i) <==> targets[i].id != id && SharePoint(box, targets[i].box)
    ensures forall k, l :: 0 <= k < |at| && 0 <= l < |at| && at[k] == i && at[l] == i ==> k == l
  {
    IntersectIff(box, targets[i].box);
    if targets[i].id != id && SharePoint(box, targets[i].box) {
      var k := PlaceOf(at, i);
    }
  }

  /** The review names a pair exactly when they share a point, and at one place only. */
  lemma ReviewNamesPairOnce(overlaps: seq<Overlap>, boxes: seq<Labelled>, i: nat, j: nat)
    requires Names(overlaps, boxes, |boxes|, 0) && i < j < |boxes|
    ensures SharePoint(boxes[i].box, boxes[j].box)
      <==> exists k :: 0 <= k < |overlaps| && overlaps[k].first == i && overlaps[k].second == j
    ensures forall k, l :: 0 <= k < l < |overlaps| && overlaps[k].first == i && overlaps[k].second == j ==>
      overlaps[l].first != i || overlaps[l].second != j
  {
    IntersectIff(boxes[i].box, boxes[j].box);
    if SharePoint(boxes[i].box, boxes[j].box) {
      var o :| o in overlaps && o.first == i && o.second == j;
      var k :| 0 <= k < |overlaps| && overlaps[k] == o;
    }
    forall k | 0 <= k < |overlaps| && overlaps[k].first == i && overlaps[k].second == j
      ensures SharePoint(boxes[i].box, boxes[j].box)
    {
      assert overlaps[k] in overlaps;
    }
    forall k, l | 0 <= k < l < |overlaps| && overlaps[k].first == i && overlaps[k].second == j
      ensures overlaps[l].first != i || overlaps[l].second != j
    {
      assert Before(overlaps[k], overlaps[l]);
    }
  }
}
