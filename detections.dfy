/**
 * Detection normalisation: the post-processing loop of `detect_missing_ppe`
 * (main.py:131-155) and the `CLASS_TO_PPE` table (main.py:46-53).
 *
 * The detector itself is not modelled.  Its output is given as one sequence
 * of raw boxes per result, with the class index already resolved to its
 * class name and the corner coordinates already truncated to integers.
 */
module Detections {
  import opened Wrappers

  /** The six kinds of protective equipment the detector can report missing. */
  const PpeKinds: set<string> := {"hardhat", "gloves", "vest", "mask", "goggles", "earplugs"}

  /** The detector's "negative PPE" classes and the equipment each one says is missing. */
  const ClassToPpe: map<string, string> := map[
    "no-hardhat" := "hardhat",
    "no-gloves" := "gloves",
    "no-vest" := "vest",
    "no-mask" := "mask",
    "no-goggles" := "goggles",
    "no-earplugs" := "earplugs"
  ]

  /** Default of the detection confidence threshold (YOLO_CONFIDENCE_THRESHOLD). */
  const DefaultConfidenceThreshold: real := 0.4

  /** One box as the detector reports it: class name, confidence and corners (x1, y1), (x2, y2). */
  datatype RawBox = RawBox(className: string, conf: real, x1: int, y1: int, x2: int, y2: int)

  /** An axis-aligned box given by its top-left corner and its extent. */
  datatype BBox = BBox(x: int, y: int, width: int, height: int)

  /** A normalised detection, the record the service returns and forwards. */
  datatype Detection = Detection(missingPpe: string, confidence: real, bbox: BBox)

  /** Look a class name up in the vocabulary; every kept class reads "no-<kind>". */
  function PpeOf(className: string): (r: Option<string>)
    ensures r.Some? <==> className in ClassToPpe
    ensures r.Some? ==> r.value in PpeKinds && className == "no-" + r.value
  {
    if className in ClassToPpe then Some(ClassToPpe[className]) else None
  }

  /** The two filters of the loop: a known negative class, and a confidence at or above the threshold. */
  function Qualifies(b: RawBox, threshold: real): (r: bool)
    ensures r <==> PpeOf(b.className).Some? && b.conf >= threshold
    ensures r ==> Normalize(b).missingPpe in PpeKinds && Normalize(b).confidence >= threshold
  {
    b.className in ClassToPpe && b.conf >= threshold
  }

  /** The corners of a box, computed as the annotator does (main.py:89-90). */
  function Corners(box: BBox): (r: (int, int, int, int))
    ensures BBox(r.0, r.1, r.2 - r.0, r.3 - r.1) == box
  {
    (box.x, box.y, box.x + box.width, box.y + box.height)
  }

  /** The record built for one kept box. */
  function Normalize(b: RawBox): (d: Detection)
    requires b.className in ClassToPpe
    ensures PpeOf(b.className) == Some(d.missingPpe)
    ensures d.confidence == b.conf
    ensures Corners(d.bbox) == (b.x1, b.y1, b.x2, b.y2)
  {
    Detection(ClassToPpe[b.className], b.conf, BBox(b.x1, b.y1, b.x2 - b.x1, b.y2 - b.y1))
  }

  /** All boxes of all results, in the order the two nested loops visit them. */
  function Flatten(results: seq<seq<RawBox>>): (boxes: seq<RawBox>)
    ensures forall b :: b in boxes <==> exists r :: r in results && b in r
  {
    if results == [] then []
    else
      var n := |results| - 1;
      assert forall r :: r in results <==> r in results[..n] || r == results[n];
      Flatten(results[..n]) + results[n]
  }

  /** Flattening a concatenation is concatenating the flattenings: order and repeats are kept. */
  lemma {:induction false} FlattenAppend(a: seq<seq<RawBox>>, b: seq<seq<RawBox>>)
    ensures Flatten(a + b) == Flatten(a) + Flatten(b)
  {
    if b != [] {
      var n := |b| - 1;
      assert (a + b)[..|a + b| - 1] == a + b[..n];
      FlattenAppend(a, b[..n]);
    } else {
      assert a + b == a;
    }
  }

  /** The filter-map the loop computes: qualifying boxes, normalised, in input order. */
  function Normalized(boxes: seq<RawBox>, threshold: real): (ds: seq<Detection>)
    ensures |ds| <= |boxes|
    ensures forall k :: 0 <= k < |ds| ==> ds[k].missingPpe in PpeKinds && ds[k].confidence >= threshold
  {
    if boxes == [] then []
    else
      var rest := Normalized(boxes[..|boxes| - 1], threshold);
      var b := boxes[|boxes| - 1];
      if Qualifies(b, threshold) then rest + [Normalize(b)] else rest
  }

  /** Positions of the qualifying boxes, in increasing order. */
  ghost function QualifyingIndices(boxes: seq<RawBox>, threshold: real): (idx: seq<nat>) {
    if boxes == [] then []
    else
      var rest := QualifyingIndices(boxes[..|boxes| - 1], threshold);
      if Qualifies(boxes[|boxes| - 1], threshold) then rest + [|boxes| - 1] else rest
  }

  /**
   * Normalisation keeps exactly the qualifying boxes, in input order: the k-th
   * detection is the image of the k-th qualifying box, the positions increase,
   * and every qualifying box is among them.
   */
  lemma {:induction false} NormalizedIsFilterMap(boxes: seq<RawBox>, threshold: real)
    ensures var ds, idx := Normalized(boxes, threshold), QualifyingIndices(boxes, threshold);
      && |idx| == |ds|
      && (forall k :: 0 <= k < |idx| ==>
            idx[k] < |boxes| && Qualifies(boxes[idx[k]], threshold) && ds[k] == Normalize(boxes[idx[k]]))
      && (forall k1, k2 :: 0 <= k1 < k2 < |idx| ==> idx[k1] < idx[k2])
      && (forall i :: 0 <= i < |boxes| && Qualifies(boxes[i], threshold) ==> i in idx)
  {
    if boxes != [] {
      var n := |boxes| - 1;
      var front := boxes[..n];
      NormalizedIsFilterMap(front, threshold);
      forall i | 0 <= i < n ensures front[i] == boxes[i] { }
    }
  }

  /** A detection is produced exactly when some qualifying box normalises to it. */
  lemma NormalizedMembership(boxes: seq<RawBox>, threshold: real, d: Detection)
    ensures d in Normalized(boxes, threshold) <==>
      exists i :: 0 <= i < |boxes| && Qualifies(boxes[i], threshold) && d == Normalize(boxes[i])
  {
    NormalizedIsFilterMap(boxes, threshold);
    var ds, idx := Normalized(boxes, threshold), QualifyingIndices(boxes, threshold);
    if d in ds {
      var k :| 0 <= k < |ds| && ds[k] == d;
      assert Qualifies(boxes[idx[k]], threshold) && d == Normalize(boxes[idx[k]]);
    }
    if i :| 0 <= i < |boxes| && Qualifies(boxes[i], threshold) && d == Normalize(boxes[i]) {
      var k :| 0 <= k < |idx| && idx[k] == i;
      assert ds[k] == d;
    }
  }

  /** Normalising a concatenation is concatenating the normalisations. */
  lemma {:induction false} NormalizedAppend(a: seq<RawBox>, b: seq<RawBox>, threshold: real)
    ensures Normalized(a + b, threshold) == Normalized(a, threshold) + Normalized(b, threshold)
  {
    if b != [] {
      var n := |b| - 1;
      assert (a + b)[..|a + b| - 1] == a + b[..n];
      NormalizedAppend(a, b[..n], threshold);
    } else {
      assert a + b == a;
    }
  }

  /** All boxes are kept exactly when all of them qualify. */
  lemma {:induction false} NormalizedKeepsAll(boxes: seq<RawBox>, threshold: real)
    ensures |Normalized(boxes, threshold)| == |boxes| <==>
      forall i :: 0 <= i < |boxes| ==> Qualifies(boxes[i], threshold)
  {
    if boxes != [] {
      var n := |boxes| - 1;
      NormalizedKeepsAll(boxes[..n], threshold);
      forall i | 0 <= i < n ensures boxes[..n][i] == boxes[i] { }
    }
  }

  /** Nothing is kept exactly when no box qualifies. */
  lemma {:induction false} NormalizedEmpty(boxes: seq<RawBox>, threshold: real)
    ensures Normalized(boxes, threshold) == [] <==>
      forall i :: 0 <= i < |boxes| ==> !Qualifies(boxes[i], threshold)
  {
    if boxes != [] {
      var n := |boxes| - 1;
      NormalizedEmpty(boxes[..n], threshold);
      forall i | 0 <= i < n ensures boxes[..n][i] == boxes[i] { }
    }
  }

  /**
   * The post-processing loop of `detect_missing_ppe`: visits every box of
   * every result, skips unknown classes, keeps those at or above the threshold.
   */
  method DetectMissingPpe(results: seq<seq<RawBox>>, threshold: real) returns (detections: seq<Detection>)
    ensures detections == Normalized(Flatten(results), threshold)
  {
    detections := [];
    for i := 0 to |results|
      invariant detections == Normalized(Flatten(results[..i]), threshold)
    {
      var boxes := results[i];
      ghost var done := Flatten(results[..i]);
      assert done + boxes[..0] == done;
      for j := 0 to |boxes|
        invariant detections == Normalized(done + boxes[..j], threshold)
      {
        var box := boxes[j];
        assert (done + boxes[..j + 1])[..|done + boxes[..j + 1]| - 1] == done + boxes[..j];
        if box.className !in ClassToPpe {
          continue;
        }
        if box.conf >= threshold {
          detections := detections + [Normalize(box)];
        }
      }
      assert results[..i + 1][..i] == results[..i];
      assert boxes[..|boxes|] == boxes;
    }
    assert results[..|results|] == results;
  }
}
