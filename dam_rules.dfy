/**
 * The complementary validator: water-body borders that touch a dam are
 * labelled "erro borda" (the others "Correto"), and dams whose overlap flag
 * disagrees with the road layer get an "Erro 7" point at their first vertex.
 *
 * The spatial index and the `within` predicate are oracles: `index(p)` is the
 * list of dam ids whose bounding box meets the point `p`, and `within(p, g)`
 * says whether `p` lies within the geometry `g`.
 */
module DamRules {
  import opened Features
  import opened Host

  // ---------------------------------------------------------------------------
  // Border rule

  /** The dam `fid` (looked up by id) contains the point. A missing id yields an empty feature, which contains nothing. */
  predicate CandidateHit(p: Point, fid: int, dams: seq<Feature>, within: (Point, Geom) -> bool)
  {
    FindById(dams, fid).Some? && within(p, FindById(dams, fid).value.geom)
  }

  /** Some index candidate for `p` contains it. */
  predicate HitAt(p: Point, dams: seq<Feature>, index: Point -> seq<int>, within: (Point, Geom) -> bool)
  {
    exists i :: 0 <= i < |index(p)| && CandidateHit(p, index(p)[i], dams, within)
  }

  /** Some vertex of the border lies within a dam. */
  predicate BorderHit(vs: seq<Point>, dams: seq<Feature>, index: Point -> seq<int>, within: (Point, Geom) -> bool)
  {
    exists k :: 0 <= k < |vs| && HitAt(vs[k], dams, index, within)
  }

  /**
   * When the index reports every dam that contains a point and the dam ids
   * are unique, the indexed test is the plain one: some dam contains `p`.
   */
  lemma HitAtIndexFree(p: Point, dams: seq<Feature>, index: Point -> seq<int>, within: (Point, Geom) -> bool)
    requires UniqueIds(dams)
    requires forall d :: d in dams && within(p, d.geom) ==> d.id in index(p)
    ensures HitAt(p, dams, index, within) <==> exists d :: d in dams && within(p, d.geom)
  {
    if exists d :: d in dams && within(p, d.geom) {
      var d :| d in dams && within(p, d.geom);
      FindByIdUnique(dams, d);
      var i :| 0 <= i < |index(p)| && index(p)[i] == d.id;
      assert CandidateHit(p, index(p)[i], dams, within);
    }
  }

  /** The candidate loop: whether some candidate dam contains the point. */
  method AnyCandidateWithin(p: Point, dams: seq<Feature>, index: Point -> seq<int>, within: (Point, Geom) -> bool)
    returns (hit: bool)
    ensures hit == HitAt(p, dams, index, within)
  {
    var ids := index(p);
    hit := false;
    var i := 0;
    while i < |ids|
      invariant 0 <= i <= |ids|
      invariant forall k :: 0 <= k < i ==> !CandidateHit(p, ids[k], dams, within)
    {
      var dam := FindById(dams, ids[i]);
      if dam.Some? && within(p, dam.value.geom) {
        hit := true;
        break;
      }
      i := i + 1;
    }
  }

  /**
   * The vertex loop of one border: polls for cancellation before every
   * vertex and stops at the first vertex within a dam. A reported hit is
   * always real; a miss is exact unless the scan was cut by cancellation.
   */
  method ScanVertices(vs: seq<Point>, dams: seq<Feature>, index: Point -> seq<int>,
                      within: (Point, Geom) -> bool, feedback: Feedback)
    returns (hit: bool)
    modifies feedback`polls
    ensures feedback.polls >= old(feedback.polls)
    ensures hit ==> BorderHit(vs, dams, index, within)
    ensures !feedback.Observed() ==> hit == BorderHit(vs, dams, index, within)
  {
    hit := false;
    var j := 0;
    while j < |vs|
      invariant 0 <= j <= |vs|
      invariant feedback.polls >= old(feedback.polls)
      invariant forall k :: 0 <= k < j ==> !HitAt(vs[k], dams, index, within)
    {
      var cancel := feedback.IsCanceled();
      if cancel {
        break;
      }
      hit := AnyCandidateWithin(vs[j], dams, index, within);
      if hit {
        break;
      }
      j := j + 1;
    }
  }

  /** The label a water body receives. */
  function Labelled(f: Feature, hit: bool): (g: Feature)
    ensures Get(g, "Classificacao") == StrV(if hit then "erro borda" else "Correto")
  {
    SetAttr(f, "Classificacao", StrV(if hit then "erro borda" else "Correto"))
  }

  predicate HasBorderError(f: Feature)
  {
    Get(f, "Classificacao") == StrV("erro borda")
  }

  /** The progress reported after each of the first `n` of `total` features. */
  function EachProgress(n: nat, total: nat): seq<int>
    requires n <= total
  {
    if n == 0 then [] else EachProgress(n - 1, total) + [Percent(n, total)]
  }

  /** One report per processed feature, each between 0 and 100, and 100 once all are done. */
  lemma {:induction false} EachProgressBounds(n: nat, total: nat)
    requires n <= total
    ensures |EachProgress(n, total)| == n
    ensures forall p :: p in EachProgress(n, total) ==> 0 <= p <= 100
    ensures 0 < n == total ==> EachProgress(n, total)[n - 1] == 100
  {
    if n > 0 {
      EachProgressBounds(n - 1, total);
      PercentBounds(n, total);
    }
  }

  /** The water bodies with the label field in place, before any is labelled. */
  function PreparedWater(fields: seq<string>, features: seq<Feature>): seq<Feature>
  {
    FeaturesAfterEnsureField(fields, features, "Classificacao")
  }

  /**
   * The border rule over the water layer, in place. The field is added when
   * absent; then the labelling loop runs over the prepared bodies.
   */
  method ValidateBorders(water: VectorLayer, dams: seq<Feature>, index: Point -> seq<int>,
                         within: (Point, Geom) -> bool, feedback: Feedback)
    returns (invalid: seq<Feature>, ghost processed: nat)
    modifies water, feedback
    ensures water.fields == EnsureField(old(water.fields), "Classificacao")
    ensures processed <= |old(water.features)| == |water.features|
    ensures processed < |old(water.features)| ==> feedback.Observed()
    ensures BordersLabelled(PreparedWater(old(water.fields), old(water.features)), water.features, processed,
                            dams, index, within, feedback.Observed())
    ensures invalid == Filter(water.features[..processed], HasBorderError)
    ensures feedback.reports == old(feedback.reports) + EachProgress(processed, |water.features|)
  {
    if IndexOf(water.fields, "Classificacao") == -1 {
      water.AddAttribute("Classificacao");
    }
    invalid, processed := LabelBorders(water, dams, index, within, feedback);
  }

  /**
   * How the border rule leaves the layer: the first `processed` bodies are
   * labelled and the rest untouched; every "erro borda" is right, and every
   * label is exact except possibly the last one when cancellation cut its
   * scan (`cut` says whether cancellation was seen).
   */
  ghost predicate BordersLabelled(before: seq<Feature>, after: seq<Feature>, processed: nat,
                                  dams: seq<Feature>, index: Point -> seq<int>,
                                  within: (Point, Geom) -> bool, cut: bool)
  {
    && processed <= |before| == |after|
    && (forall k :: processed <= k < |after| ==> after[k] == before[k])
    && (forall k :: 0 <= k < processed ==>
          after[k] == Labelled(before[k], true) || after[k] == Labelled(before[k], false))
    && (forall k :: 0 <= k < processed && HasBorderError(after[k]) ==>
          BorderHit(Vertices(before[k].geom), dams, index, within))
    && (forall k :: 0 <= k < processed && (k + 1 < processed || !cut) ==>
          after[k] == Labelled(before[k], BorderHit(Vertices(before[k].geom), dams, index, within)))
  }

  /** Labelling one more body, with a hit that is right and exact unless cut, keeps `BordersLabelled`. */
  lemma BordersLabelledStep(prepared: seq<Feature>, before: seq<Feature>, after: seq<Feature>, i: nat, hit: bool,
                            dams: seq<Feature>, index: Point -> seq<int>, within: (Point, Geom) -> bool, cut: bool)
    requires BordersLabelled(prepared, before, i, dams, index, within, false)
    requires i < |before| && after == before[i := Labelled(before[i], hit)]
    requires hit ==> BorderHit(Vertices(prepared[i].geom), dams, index, within)
    requires !cut ==> hit == BorderHit(Vertices(prepared[i].geom), dams, index, within)
    ensures BordersLabelled(prepared, after, i + 1, dams, index, within, cut)
  {
    assert before[i] == prepared[i];
    assert HasBorderError(after[i]) <==> hit;
  }

  /** One water body: scan its border, then store its label. */
  method LabelOne(water: VectorLayer, i: nat, dams: seq<Feature>, index: Point -> seq<int>,
                  within: (Point, Geom) -> bool, feedback: Feedback)
    returns (labelled: Feature, hit: bool)
    requires i < |water.features|
    modifies water`features, feedback`polls
    ensures labelled == Labelled(old(water.features)[i], hit)
    ensures water.features == old(water.features)[i := labelled]
    ensures feedback.polls >= old(feedback.polls)
    ensures hit ==> BorderHit(Vertices(old(water.features)[i].geom), dams, index, within)
    ensures !feedback.Observed() ==> hit == BorderHit(Vertices(old(water.features)[i].geom), dams, index, within)
  {
    var feature := water.features[i];
    hit := ScanVertices(Vertices(feature.geom), dams, index, within, feedback);
    labelled := Labelled(feature, hit);
    water.UpdateFeature(i, labelled);
  }

  /** The labelling loop of the border rule, polling for cancellation before each body. */
  method LabelBorders(water: VectorLayer, dams: seq<Feature>, index: Point -> seq<int>,
                      within: (Point, Geom) -> bool, feedback: Feedback)
    returns (invalid: seq<Feature>, ghost processed: nat)
    modifies water`features, feedback
    ensures processed <= |old(water.features)| == |water.features|
    ensures processed < |old(water.features)| ==> feedback.Observed()
    ensures BordersLabelled(old(water.features), water.features, processed, dams, index, within, feedback.Observed())
    ensures invalid == Filter(water.features[..processed], HasBorderError)
    ensures feedback.reports == old(feedback.reports) + EachProgress(processed, |water.features|)
  {
    ghost var prepared := water.features;
    var total := |water.features|;
    invalid := [];
    var i := 0;
    while i < |water.features|
      invariant 0 <= i <= |water.features| == |prepared| == total
      invariant BordersLabelled(prepared, water.features, i, dams, index, within, feedback.Observed())
      invariant invalid == Filter(water.features[..i], HasBorderError)
      invariant feedback.reports == old(feedback.reports) + EachProgress(i, total)
    {
      ghost var seenAtHead := feedback.Observed();
      var cancel := feedback.IsCanceled();
      if cancel {
        break;
      }
      assert !seenAtHead;
      invalid := LabelStep(water, prepared, i, invalid, dams, index, within, feedback);
      i := i + 1;
    }
    processed := i;
  }

  /** One iteration of the labelling loop after a poll that did not see cancellation. */
  method LabelStep(water: VectorLayer, ghost prepared: seq<Feature>, i: nat, invalid: seq<Feature>,
                   dams: seq<Feature>, index: Point -> seq<int>, within: (Point, Geom) -> bool, feedback: Feedback)
    returns (invalid': seq<Feature>)
    requires i < |water.features|
    requires BordersLabelled(prepared, water.features, i, dams, index, within, false)
    requires invalid == Filter(water.features[..i], HasBorderError)
    modifies water`features, feedback
    ensures |water.features| == |old(water.features)|
    ensures BordersLabelled(prepared, water.features, i + 1, dams, index, within, feedback.Observed())
    ensures invalid' == Filter(water.features[..i + 1], HasBorderError)
    ensures feedback.reports == old(feedback.reports) + [Percent(i + 1, |water.features|)]
  {
    ghost var before := water.features;
    var total := |water.features|;
    var labelled, hit := LabelOne(water, i, dams, index, within, feedback);
    invalid' := invalid;
    if hit {
      invalid' := invalid + [labelled];
    }
    BordersLabelledStep(prepared, before, water.features, i, hit, dams, index, within, feedback.Observed());
    assert invalid' == Filter(water.features[..i + 1], HasBorderError) by {
      assert water.features[..i + 1] == before[..i] + [labelled];
      FilterSnoc(before[..i], labelled, HasBorderError);
      assert HasBorderError(labelled) == hit;
    }
    feedback.SetProgress(Percent(i + 1, total));
  }

  // ---------------------------------------------------------------------------
  // Dam overlap rule ("Erro 7")

  /** The overlap loop: the ids of the dams that are also ids of road lines. */
  method OverlapIds(dams: seq<Feature>, roads: seq<Feature>) returns (overlap: set<int>)
    ensures overlap == IdSet(dams) * IdSet(roads)
  {
    var roadIds := IdSet(roads);
    overlap := {};
    var i := 0;
    while i < |dams|
      invariant 0 <= i <= |dams|
      invariant overlap == IdSet(dams[..i]) * roadIds
    {
      assert dams[..i + 1] == dams[..i] + [dams[i]];
      assert IdSet(dams[..i + 1]) == IdSet(dams[..i]) + {dams[i].id};
      if dams[i].id in roadIds {
        overlap := overlap + {dams[i].id};
      }
      i := i + 1;
    }
    assert dams[..i] == dams;
  }

  /** The dam's overlap flag (`sobreposto_transportes == 1`) disagrees with the id overlap. */
  predicate Erro7(d: Feature, overlap: set<int>)
  {
    || (d.id in overlap && !Is(Get(d, "sobreposto_transportes"), 1))
    || (d.id !in overlap && Is(Get(d, "sobreposto_transportes"), 1))
  }

  /** The two branches together say: flagged exactly when the flag and the overlap differ. */
  lemma Erro7IsDisagreement(d: Feature, overlap: set<int>)
    ensures Erro7(d, overlap) <==> (d.id in overlap) != Is(Get(d, "sobreposto_transportes"), 1)
  {
  }

  /**
   * The first point of a line: of the first part for a multi-line, of the
   * line otherwise. None where the source's indexing fails (no part, an
   * empty part, or a geometry that is not a line).
   */
  function FirstPoint(g: Geom): Option<Point>
  {
    match g
    case Parts(parts, _) =>
      // `asMultiPolyline()[0][0]` and `asPolyline()[0]` pick the same vertex
      if |parts| > 0 && |parts[0]| > 0 then Some(parts[0][0]) else None
    case _ => None
  }

  /** The first point, when there is one, is the geometry's first vertex. */
  lemma FirstPointIsFirstVertex(g: Geom)
    ensures FirstPoint(g).Some? ==> |Vertices(g)| > 0 && FirstPoint(g).value == Vertices(g)[0]
    ensures g.Parts? && |g.parts| > 0 && |g.parts[0]| > 0 ==> FirstPoint(g).Some?
  {
    if FirstPoint(g).Some? {
      assert Vertices(g) == g.parts[0] + Flatten(g.parts[1..]);
    }
  }

  /** The "Erro 7" point of a dam: id and label (positional attributes), at its first point. */
  function PointRow(d: Feature, verdict: string): Row
    requires FirstPoint(d.geom).Some?
  {
    Row(map["id" := IntV(d.id), "Classificação" := StrV(verdict)], PointGeom(FirstPoint(d.geom).value))
  }

  /** Writes a dam's point; fails, writing nothing, when the dam has no first point. */
  method AddPointFeature(out: Sink<Row>, d: Feature, verdict: string) returns (ok: bool)
    modifies out
    ensures ok <==> FirstPoint(d.geom).Some?
    ensures ok ==> out.items == old(out.items) + [PointRow(d, verdict)]
    ensures !ok ==> out.items == old(out.items)
  {
    var first: Point;
    // the two branches differ only in the accessor the source calls
    match d.geom {
      case Parts(parts, multipart) =>
        if multipart {
          if |parts| == 0 || |parts[0]| == 0 {
            return false;
          }
          first := parts[0][0];
        } else {
          if |parts| == 0 || |parts[0]| == 0 {
            return false;
          }
          first := parts[0][0];
        }
      case _ =>
        return false;
    }
    out.AddFeature(Row(map["id" := IntV(d.id), "Classificação" := StrV(verdict)], PointGeom(first)));
    ok := true;
  }

  /**
   * The rows the overlap rule writes before it stops: one per flagged dam,
   * in layer order, until a flagged dam without a first point aborts the run.
   */
  function Erro7Run(ds: seq<Feature>, overlap: set<int>): (run: (seq<Row>, bool))
  {
    if |ds| == 0 then ([], false)
    else
      var (rows, failed) := Erro7Run(ds[..|ds| - 1], overlap);
      var d := ds[|ds| - 1];
      if failed || !Erro7(d, overlap) then (rows, failed)
      else if FirstPoint(d.geom).None? then (rows, true)
      else (rows + [PointRow(d, "Erro 7")], false)
  }

  function Erro7Flag(overlap: set<int>): Feature -> bool
  {
    (d: Feature) => Erro7(d, overlap)
  }

  /**
   * The run fails exactly when some flagged dam has no first point; otherwise
   * it writes one row per flagged dam, in order, at that dam's first point.
   */
  lemma {:induction false} Erro7RunSpec(ds: seq<Feature>, overlap: set<int>)
    ensures Erro7Run(ds, overlap).1 <==> exists d :: d in ds && Erro7(d, overlap) && FirstPoint(d.geom).None?
    ensures !Erro7Run(ds, overlap).1 ==>
      var flagged := Filter(ds, Erro7Flag(overlap));
      && |Erro7Run(ds, overlap).0| == |flagged|
      && forall i :: 0 <= i < |flagged| ==>
           FirstPoint(flagged[i].geom).Some? && Erro7Run(ds, overlap).0[i] == PointRow(flagged[i], "Erro 7")
  {
    if |ds| > 0 {
      var init := ds[..|ds| - 1];
      var d := ds[|ds| - 1];
      assert ds == init + [d];
      Erro7RunSpec(init, overlap);
      FilterSpec(init, Erro7Flag(overlap));
    }
  }

  /**
   * The overlap rule: finds the overlapping ids, then writes a point for every
   * flagged dam. `ok` is false when the run aborted; the rows written before
   * the abort stay in the sink.
   */
  method CreatePointsFromDams(dams: seq<Feature>, roads: seq<Feature>, out: Sink<Row>) returns (ok: bool)
    modifies out
    ensures ok == !Erro7Run(dams, IdSet(dams) * IdSet(roads)).1
    ensures out.items == old(out.items) + Erro7Run(dams, IdSet(dams) * IdSet(roads)).0
  {
    var overlap := OverlapIds(dams, roads);
    var i := 0;
    ok := true;
    while i < |dams|
      invariant 0 <= i <= |dams|
      invariant ok == !Erro7Run(dams[..i], overlap).1
      invariant out.items == old(out.items) + Erro7Run(dams[..i], overlap).0
    {
      assert dams[..i + 1][..i] == dams[..i];
      var d := dams[i];
      if Erro7(d, overlap) {
        ok := AddPointFeature(out, d, "Erro 7");
        if !ok {
          Erro7RunStops(dams, i + 1, overlap);
          return;
        }
      }
      i := i + 1;
    }
    assert dams[..i] == dams;
  }

  /** Once the run has failed on a prefix, the rest of the layer changes nothing. */
  lemma {:induction false} Erro7RunStops(ds: seq<Feature>, n: nat, overlap: set<int>)
    requires n <= |ds| && Erro7Run(ds[..n], overlap).1
    ensures Erro7Run(ds, overlap) == Erro7Run(ds[..n], overlap)
    decreases |ds| - n
  {
    if n < |ds| {
      assert ds[..n + 1][..n] == ds[..n];
      Erro7RunStops(ds, n + 1, overlap);
    } else {
      assert ds[..n] == ds;
    }
  }

  /**
   * The complementary algorithm: the border rule, then the overlap rule
   * (which runs whether or not classification was requested).
   */
  method ValidateWaterAndDams(water: VectorLayer, dams: seq<Feature>, roads: seq<Feature>,
                              index: Point -> seq<int>, within: (Point, Geom) -> bool,
                              out: Sink<Row>, feedback: Feedback)
    returns (ok: bool, ghost processed: nat)
    modifies water, out, feedback
    ensures water.fields == EnsureField(old(water.fields), "Classificacao")
    ensures processed <= |old(water.features)| == |water.features|
    ensures processed < |old(water.features)| ==> feedback.Observed()
    ensures BordersLabelled(PreparedWater(old(water.fields), old(water.features)), water.features, processed,
                            dams, index, within, feedback.Observed())
    ensures feedback.reports == old(feedback.reports) + EachProgress(processed, |water.features|)
    ensures ok == !Erro7Run(dams, IdSet(dams) * IdSet(roads)).1
    ensures out.items == old(out.items) + Erro7Run(dams, IdSet(dams) * IdSet(roads)).0
  {
    var invalid;
    invalid, processed := ValidateBorders(water, dams, index, within, feedback);
    ok := CreatePointsFromDams(dams, roads, out);
  }
}
