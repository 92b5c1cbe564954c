/** The detection session and its box extractor (Detector.kt). The inference model is
    outside the model: its output is a given flat array of reals, `maxDetections`
    candidates of `numChannel` values, each starting x1, y1, x2, y2, confidence, classId. */
module Detection {
  import opened Shared

  /** MAX_DETECTIONS: at most this many boxes leave one extraction. */
  const MaxDetections: nat := 15
  /** DEFAULT_CONFIDENCE_PERCENT / 100. */
  const DefaultConfThreshold: real := 0.6
  /** The only class the extractor keeps. */
  const TargetClass: real := 0.0

  /** One row of the model output. */
  datatype Candidate = Candidate(x1: real, y1: real, x2: real, y2: real, confidence: real, classId: real)

  lemma RowFits(i: nat, n: nat, channels: nat)
    requires i < n
    ensures (i + 1) * channels <= n * channels
  {
  }

  /** The i-th candidate of the flat output array. */
  function CandidateAt(output: seq<real>, channels: nat, i: nat): Candidate
    requires 6 <= channels && (i + 1) * channels <= |output|
  {
    var b := i * channels;
    Candidate(output[b], output[b + 1], output[b + 2], output[b + 3], output[b + 4], output[b + 5])
  }

  /** The first n candidates of the flat output array, in array order. */
  function Candidates(output: seq<real>, channels: nat, n: nat): (cs: seq<Candidate>)
    requires 6 <= channels && n * channels <= |output|
    ensures |cs| == n
  {
    seq(n, i requires 0 <= i < n => RowFits(i, n, channels); CandidateAt(output, channels, i))
  }

  /** A candidate that survives the class test and the degenerate-geometry test (raw values). */
  predicate Keeps(c: Candidate) {
    c.classId == TargetClass && !(c.x2 <= c.x1 || c.y2 <= c.y1)
  }

  /** The box emitted for a kept candidate: each coordinate clamped into [0, 1]. */
  function ClampBox(c: Candidate): DetectionBox {
    DetectionBox(Clamp(c.x1, 0.0, 1.0), Clamp(c.y1, 0.0, 1.0), Clamp(c.x2, 0.0, 1.0), Clamp(c.y2, 0.0, 1.0))
  }

  /** A box inside the unit square with ordered (possibly equal) corners. */
  predicate InUnitSquare(b: DetectionBox) {
    0.0 <= b.x1 <= b.x2 <= 1.0 && 0.0 <= b.y1 <= b.y2 <= 1.0
  }

  /** `b` is the clamp of a kept candidate among the first `limit` of `cs`. */
  ghost predicate ComesFrom(b: DetectionBox, cs: seq<Candidate>, limit: nat) {
    exists j :: 0 <= j < |cs| && j < limit && Keeps(cs[j]) && b == ClampBox(cs[j])
  }

  /** The extraction loop read as a function: candidates in order, `room` boxes still
      allowed; stop at the first candidate at or below the threshold. */
  function Scan(cs: seq<Candidate>, threshold: real, room: nat): seq<DetectionBox>
  {
    if cs == [] || room == 0 then []
    else if cs[0].confidence <= threshold then []
    else if !Keeps(cs[0]) then Scan(cs[1..], threshold, room)
    else [ClampBox(cs[0])] + Scan(cs[1..], threshold, room - 1)
  }

  // ----- an independent reading of the same extraction: prefix, filter, truncate -----

  /** The longest prefix of candidates whose confidence is above the threshold. */
  function Confident(cs: seq<Candidate>, threshold: real): seq<Candidate>
  {
    if cs == [] || cs[0].confidence <= threshold then [] else [cs[0]] + Confident(cs[1..], threshold)
  }

  /** Kept candidates, clamped, in order. */
  function Filtered(cs: seq<Candidate>): seq<DetectionBox>
  {
    if cs == [] then [] else (if Keeps(cs[0]) then [ClampBox(cs[0])] else []) + Filtered(cs[1..])
  }

  function Take<T>(s: seq<T>, n: nat): seq<T> {
    if |s| <= n then s else s[..n]
  }

  /** The extraction is the first `room` kept boxes of the confident prefix. */
  lemma {:induction false} ScanIsTakeOfFilteredPrefix(cs: seq<Candidate>, threshold: real, room: nat)
    ensures Scan(cs, threshold, room) == Take(Filtered(Confident(cs, threshold)), room)
  {
    if cs == [] || cs[0].confidence <= threshold {
    } else if room == 0 {
    } else {
      ScanIsTakeOfFilteredPrefix(cs[1..], threshold, if Keeps(cs[0]) then room - 1 else room);
      assert Confident(cs, threshold) == [cs[0]] + Confident(cs[1..], threshold);
      assert ([cs[0]] + Confident(cs[1..], threshold))[1..] == Confident(cs[1..], threshold);
    }
  }

  /** The confident prefix is a prefix, entirely above the threshold, and ends at the first
      candidate at or below it. */
  lemma {:induction false} ConfidentIsMaximalPrefix(cs: seq<Candidate>, threshold: real)
    ensures |Confident(cs, threshold)| <= |cs|
    ensures Confident(cs, threshold) == cs[..|Confident(cs, threshold)|]
    ensures forall j :: 0 <= j < |Confident(cs, threshold)| ==> cs[j].confidence > threshold
    ensures |Confident(cs, threshold)| < |cs| ==> cs[|Confident(cs, threshold)|].confidence <= threshold
  {
    if cs != [] && cs[0].confidence > threshold {
      ConfidentIsMaximalPrefix(cs[1..], threshold);
    }
  }

  /** Filtering distributes over concatenation, so it keeps the candidates' order. */
  lemma {:induction false} FilteredAppend(a: seq<Candidate>, b: seq<Candidate>)
    ensures Filtered(a + b) == Filtered(a) + Filtered(b)
  {
    if a == [] {
      assert a + b == b;
    } else {
      assert (a + b)[1..] == a[1..] + b;
      FilteredAppend(a[1..], b);
    }
  }

  /** Every filtered box comes from a kept candidate and lies in the unit square. */
  lemma {:induction false} FilteredSources(cs: seq<Candidate>)
    ensures |Filtered(cs)| <= |cs|
    ensures forall k :: 0 <= k < |Filtered(cs)| ==> InUnitSquare(Filtered(cs)[k])
    ensures forall k :: 0 <= k < |Filtered(cs)| ==> ComesFrom(Filtered(cs)[k], cs, |cs|)
  {
    if cs != [] {
      FilteredSources(cs[1..]);
      var head := if Keeps(cs[0]) then [ClampBox(cs[0])] else [];
      assert Filtered(cs) == head + Filtered(cs[1..]);
      forall k | 0 <= k < |Filtered(cs)|
        ensures InUnitSquare(Filtered(cs)[k])
        ensures ComesFrom(Filtered(cs)[k], cs, |cs|)
      {
        if k < |head| {
          assert Keeps(cs[0]) && Filtered(cs)[k] == ClampBox(cs[0]);
        } else {
          assert ComesFrom(Filtered(cs[1..])[k - |head|], cs[1..], |cs[1..]|);
          var j :| 0 <= j < |cs[1..]| && Keeps(cs[1..][j]) && Filtered(cs[1..])[k - |head|] == ClampBox(cs[1..][j]);
          assert Filtered(cs)[k] == Filtered(cs[1..])[k - |head|];
          assert cs[j + 1] == cs[1..][j];
          assert Keeps(cs[j + 1]) && Filtered(cs)[k] == ClampBox(cs[j + 1]);
        }
      }
    }
  }

  /** Everything the extractor promises about its output: at most `room` boxes, all in
      the unit square, each the clamp of a kept candidate that lies before the first
      candidate at or below the threshold. */
  lemma {:induction false} ScanProperties(cs: seq<Candidate>, threshold: real, room: nat)
    ensures |Scan(cs, threshold, room)| <= room
    ensures forall k :: 0 <= k < |Scan(cs, threshold, room)| ==> InUnitSquare(Scan(cs, threshold, room)[k])
    ensures forall k :: 0 <= k < |Scan(cs, threshold, room)| ==>
              ComesFrom(Scan(cs, threshold, room)[k], cs, |Confident(cs, threshold)|)
  {
    ScanIsTakeOfFilteredPrefix(cs, threshold, room);
    ConfidentIsMaximalPrefix(cs, threshold);
    var p := Confident(cs, threshold);
    FilteredSources(p);
    var r := Scan(cs, threshold, room);
    forall k | 0 <= k < |r|
      ensures ComesFrom(r[k], cs, |p|)
    {
      assert r[k] == Filtered(p)[k];
      assert ComesFrom(Filtered(p)[k], p, |p|);
      var j :| 0 <= j < |p| && Keeps(p[j]) && Filtered(p)[k] == ClampBox(p[j]);
      assert p[j] == cs[j];
    }
  }

  /** Candidates after the confident prefix never matter: changing them leaves the
      extraction as it was. */
  lemma {:induction false} ScanIgnoresTail(cs: seq<Candidate>, rest: seq<Candidate>, threshold: real, room: nat)
    requires |cs| > 0 && cs[|cs| - 1].confidence <= threshold
    ensures Scan(cs + rest, threshold, room) == Scan(cs, threshold, room)
  {
    if room != 0 && cs[0].confidence > threshold {
      assert (cs + rest)[1..] == cs[1..] + rest;
      ScanIgnoresTail(cs[1..], rest, threshold, if Keeps(cs[0]) then room - 1 else room);
    }
  }

  /** What one `detect` call reports: not run, nothing found, or a non-empty list. */
  datatype DetectOutcome = Skipped | EmptyDetections | BoxesDetected(boxes: seq<DetectionBox>)

  /** The result of loading the model file and building the interpreter: a failure
      (an exception out of `setup`) or the input and output tensor shapes. */
  datatype ModelLoad = LoadFailed | Loaded(tensorWidth: int, tensorHeight: int, maxDetections: nat, numChannel: nat)

  class Detector {
    /** The asset the detector loads its model from. */
    const modelPath: string
    var isReady: bool
    var hasInterpreter: bool
    var confidenceThreshold: real
    var tensorWidth: int
    var tensorHeight: int
    var maxDetections: nat
    var numChannel: nat
    /** The scratch list reused by every extraction. */
    var boxes: seq<DetectionBox>

    ghost predicate Valid()
      reads this
    {
      isReady ==> hasInterpreter && 6 <= numChannel
    }

    constructor (modelPath: string)
      ensures Valid() && !isReady && !hasInterpreter && boxes == []
      ensures confidenceThreshold == DefaultConfThreshold && this.modelPath == modelPath
    {
      this.modelPath := modelPath;
      isReady, hasInterpreter := false, false;
      confidenceThreshold := DefaultConfThreshold;
      tensorWidth, tensorHeight, maxDetections, numChannel := 0, 0, 0, 0;
      boxes := [];
    }

    /** The boxes the current output would produce. */
    ghost function Extraction(output: seq<real>): seq<DetectionBox>
      reads this
      requires Valid() && isReady && |output| == maxDetections * numChannel
    {
      Scan(Candidates(output, numChannel, maxDetections), confidenceThreshold, MaxDetections)
    }

    /** `setup`: not ready until the model is loaded and its shapes are read; a load
        failure (an exception) leaves the detector not ready. */
    method Setup(threshold: real, load: ModelLoad) returns (ok: bool)
      requires Valid()
      requires load.Loaded? ==> 6 <= load.numChannel
      modifies this
      ensures Valid() && boxes == old(boxes)
      ensures confidenceThreshold == threshold
      ensures ok == load.Loaded? && isReady == ok
      ensures ok ==> hasInterpreter && tensorWidth == load.tensorWidth && tensorHeight == load.tensorHeight
                     && maxDetections == load.maxDetections && numChannel == load.numChannel
      ensures !ok ==> hasInterpreter == old(hasInterpreter) && tensorWidth == old(tensorWidth)
                      && tensorHeight == old(tensorHeight) && maxDetections == old(maxDetections)
                      && numChannel == old(numChannel)
    {
      isReady := false;
      confidenceThreshold := threshold;
      if load.LoadFailed? {
        return false;
      }
      hasInterpreter := true;
      tensorWidth := load.tensorWidth;
      tensorHeight := load.tensorHeight;
      maxDetections := load.maxDetections;
      numChannel := load.numChannel;
      isReady := true;
      ok := true;
    }

    /** `clear`: releases the interpreter; safe to repeat. */
    method Clear()
      requires Valid()
      modifies this`isReady, this`hasInterpreter
      ensures Valid() && !isReady && !hasInterpreter
    {
      isReady := false;
      hasInterpreter := false;
    }

    /** `updateThreshold`: only the threshold changes. */
    method UpdateThreshold(threshold: real)
      requires Valid()
      modifies this`confidenceThreshold
      ensures Valid() && confidenceThreshold == threshold
    {
      confidenceThreshold := threshold;
    }

    /** `extractBoxes`: fills the scratch list; no boxes is reported as `None`, never as
        an empty list. */
    method ExtractBoxes(output: seq<real>) returns (r: Option<seq<DetectionBox>>)
      requires Valid() && isReady && |output| == maxDetections * numChannel
      modifies this`boxes
      ensures boxes == Extraction(output)
      ensures r == if boxes == [] then None else Some(boxes)
    {
      ghost var cs := Candidates(output, numChannel, maxDetections);
      boxes := [];
      for i := 0 to maxDetections
        invariant |boxes| <= MaxDetections
        invariant boxes + Scan(cs[i..], confidenceThreshold, MaxDetections - |boxes|) == Extraction(output)
      {
        if |boxes| >= MaxDetections {
          break;
        }
        RowFits(i, maxDetections, numChannel);
        var baseIndex := i * numChannel;
        var confidence := output[baseIndex + 4];
        var classId := output[baseIndex + 5];
        assert cs[i..][0] == cs[i] == CandidateAt(output, numChannel, i);
        assert cs[i..][1..] == cs[i + 1..];
        if confidence <= confidenceThreshold {
          break;
        }
        if classId != TargetClass {
          continue;
        }
        var x1 := output[baseIndex];
        var y1 := output[baseIndex + 1];
        var x2 := output[baseIndex + 2];
        var y2 := output[baseIndex + 3];
        if x2 <= x1 || y2 <= y1 {
          continue;
        }
        boxes := boxes + [DetectionBox(Clamp(x1, 0.0, 1.0), Clamp(y1, 0.0, 1.0), Clamp(x2, 0.0, 1.0), Clamp(y2, 0.0, 1.0))];
      }
      r := if boxes == [] then None else Some(boxes);
    }

    /** `detect`: nothing when not ready; otherwise exactly one of the two outcomes. */
    method Detect(output: seq<real>) returns (outcome: DetectOutcome)
      requires Valid()
      requires isReady ==> |output| == maxDetections * numChannel
      modifies this`boxes
      ensures Valid()
      ensures !isReady ==> outcome == Skipped && boxes == old(boxes)
      ensures isReady ==> outcome == (if Extraction(output) == [] then EmptyDetections else BoxesDetected(Extraction(output)))
    {
      if !isReady {
        return Skipped;
      }
      if !hasInterpreter {
        return Skipped;
      }
      var found := ExtractBoxes(output);
      if found.None? {
        return EmptyDetections;
      }
      outcome := BoxesDetected(found.value);
    }
  }
}
