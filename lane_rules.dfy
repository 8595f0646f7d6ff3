/**
 * The road-layer half of the road-network validator: the lane-count range
 * rule with its progress reports, the derived point layers (one point per
 * vertex, or one point on each line's surface) and the classification
 * cascade that labels every point.
 */
module LaneRules {
  import opened Features
  import opened Host

  /**
   * A lane or track count as the range rule reads it: `int()` of the value,
   * 1 when the conversion fails, and raised to 1 when it is below 1.
   */
  function CoercedCount(v: Value): (n: int)
    ensures n >= 1
    ensures ParseInt(v).Some? && ParseInt(v).value >= 1 ==> n == ParseInt(v).value
    ensures ParseInt(v).None? || ParseInt(v).value < 1 ==> n == 1
  {
    match ParseInt(v)
    case Some(k) => if k < 1 then 1 else k
    case None => 1
  }

  /** The range test, as written: more tracks than lanes, or a count below 1. */
  predicate RangeViolation(f: Feature)
  {
    var pistas := CoercedCount(Get(f, "nr_pistas"));
    var faixas := CoercedCount(Get(f, "nr_faixas"));
    pistas > faixas || pistas < 1 || faixas < 1
  }

  /** After coercion the "below 1" disjuncts never fire: only the order of the two counts matters. */
  lemma RangeViolationIsOrder(f: Feature)
    ensures RangeViolation(f) <==> CoercedCount(Get(f, "nr_pistas")) > CoercedCount(Get(f, "nr_faixas"))
  {
  }

  /** Two tracks on three lanes is fine; three tracks on two lanes is not. */
  lemma RangeScenarios()
    ensures RangeViolation(Feature(1, map["nr_pistas" := IntV(3), "nr_faixas" := IntV(2)], NullGeom))
    ensures !RangeViolation(Feature(1, map["nr_pistas" := IntV(2), "nr_faixas" := IntV(3)], NullGeom))
  {
  }

  /** Text that does not start like a number (`"abc"`, say) reads as one track, which four lanes never fall short of. */
  lemma UnreadableCountIgnored(s: string)
    requires |s| > 0 && !IsSpace(s[0]) && !IsSpace(s[|s| - 1])
    requires !IsDigit(s[0]) && s[0] != '-' && s[0] != '+'
    ensures !RangeViolation(Feature(1, map["nr_pistas" := StrV(s), "nr_faixas" := IntV(4)], NullGeom))
  {
    StripNothing(s);
  }

  /** A padded count of two or more tracks on a NULL lane count (read as 1) is flagged. */
  lemma PaddedCountFlagged(d: char)
    requires '2' <= d <= '9'
    ensures RangeViolation(Feature(1, map["nr_pistas" := StrV([' ', d, ' ']), "nr_faixas" := Null], NullGeom))
  {
    ParsePaddedDigit(' ', d, ' ');
  }

  /** Progress is reported once per batch of this many features. */
  const BatchSize := 10

  /** The progress reported after `n` of `total` features: one report after every tenth feature. */
  function BatchProgress(n: nat, total: nat): seq<int>
    requires n <= total
  {
    if n == 0 then []
    else BatchProgress(n - 1, total) + (if n % BatchSize == 0 then [Percent(n, total)] else [])
  }

  lemma {:induction false} BatchProgressBounds(n: nat, total: nat)
    requires n <= total
    ensures |BatchProgress(n, total)| == n / BatchSize
    ensures forall p :: p in BatchProgress(n, total) ==> 0 <= p <= 100
  {
    if n > 0 {
      BatchProgressBounds(n - 1, total);
      PercentBounds(n, total);
    }
  }

  /** One point per feature, on the feature's surface, with the feature's attributes. */
  function SurfaceRows(fs: seq<Feature>, surface: Geom -> Geom): (rows: seq<Row>)
    ensures |rows| == |fs|
    ensures forall i :: 0 <= i < |fs| ==> rows[i] == Row(fs[i].attrs, surface(fs[i].geom))
  {
    if |fs| == 0 then []
    else SurfaceRows(fs[..|fs| - 1], surface) + [Row(fs[|fs| - 1].attrs, surface(fs[|fs| - 1].geom))]
  }

  /** The coercion and the range test for one feature, step by step. */
  method CheckLaneCounts(feature: Feature) returns (bad: bool)
    ensures bad == RangeViolation(feature)
  {
    var pistas: int;
    var faixas: int;
    match ParseInt(Get(feature, "nr_pistas")) {
      case Some(k) => pistas := k;
      case None => pistas := 1;
    }
    match ParseInt(Get(feature, "nr_faixas")) {
      case Some(k) => faixas := k;
      case None => faixas := 1;
    }
    if pistas < 1 {
      pistas := 1;
    }
    if faixas < 1 {
      faixas := 1;
    }
    bad := pistas > faixas || pistas < 1 || faixas < 1;
  }

  /**
   * The range rule over a road layer. It fails when either count field is
   * missing; otherwise it returns the violating features in layer order,
   * writes one surface point per feature when `classify` is set, and
   * reports progress after every tenth feature. `surface` stands for
   * `pointOnSurface`.
   */
  method ValidateLaneCounts(layer: Layer, classify: bool, surface: Geom -> Geom,
                            sink: Sink<Row>, feedback: Feedback)
    returns (r: Result<seq<Feature>>)
    modifies sink, feedback
    ensures r.Failure? <==> "nr_pistas" !in layer.fields || "nr_faixas" !in layer.fields
    ensures r.Failure? ==> sink.items == old(sink.items) && feedback.reports == old(feedback.reports)
    ensures r.Success? ==> r.value == Filter(layer.features, RangeViolation)
    ensures r.Success? ==> sink.items == old(sink.items) + (if classify then SurfaceRows(layer.features, surface) else [])
    ensures r.Success? ==> feedback.reports == old(feedback.reports) + BatchProgress(|layer.features|, |layer.features|)
  {
    if IndexOf(layer.fields, "nr_pistas") == -1 || IndexOf(layer.fields, "nr_faixas") == -1 {
      return Failure("Os campos 'nr_pistas' ou 'nr_faixas' não foram encontrados");
    }
    var invalid := CheckAllLaneCounts(layer.features, classify, surface, sink, feedback);
    return Success(invalid);
  }

  /** The loop of the range rule: test, optional surface point, and batch progress per feature. */
  method CheckAllLaneCounts(fs: seq<Feature>, classify: bool, surface: Geom -> Geom,
                            sink: Sink<Row>, feedback: Feedback)
    returns (invalid: seq<Feature>)
    modifies sink, feedback`reports
    ensures invalid == Filter(fs, RangeViolation)
    ensures sink.items == old(sink.items) + (if classify then SurfaceRows(fs, surface) else [])
    ensures feedback.reports == old(feedback.reports) + BatchProgress(|fs|, |fs|)
  {
    invalid := [];
    var count := 0;
    while count < |fs|
      invariant 0 <= count <= |fs|
      invariant invalid == Filter(fs[..count], RangeViolation)
      invariant sink.items == old(sink.items) + (if classify then SurfaceRows(fs[..count], surface) else [])
      invariant feedback.reports == old(feedback.reports) + BatchProgress(count, |fs|)
    {
      invalid := CheckOneLane(fs, count, invalid, classify, surface, sink, feedback);
      count := count + 1;
    }
    assert fs[..count] == fs;
  }

  /** One iteration of the range rule's loop, for the feature at `count`. */
  method CheckOneLane(fs: seq<Feature>, count: nat, invalid: seq<Feature>, classify: bool, surface: Geom -> Geom,
                      sink: Sink<Row>, feedback: Feedback)
    returns (invalid': seq<Feature>)
    requires count < |fs| && invalid == Filter(fs[..count], RangeViolation)
    modifies sink, feedback`reports
    ensures invalid' == Filter(fs[..count + 1], RangeViolation)
    ensures sink.items == old(sink.items) + (if classify then [Row(fs[count].attrs, surface(fs[count].geom))] else [])
    ensures feedback.reports == old(feedback.reports) + (if (count + 1) % BatchSize == 0 then [Percent(count + 1, |fs|)] else [])
  {
    var feature := fs[count];
    ghost var seen := fs[..count + 1];
    assert seen[..|seen| - 1] == fs[..count] && seen[|seen| - 1] == feature;
    var bad := CheckLaneCounts(feature);
    invalid' := invalid;
    if bad {
      invalid' := invalid + [feature];
    }
    if classify {
      sink.AddFeature(Row(feature.attrs, surface(feature.geom)));
    }
    if (count + 1) % BatchSize == 0 {
      feedback.SetProgress(Percent(count + 1, |fs|));
    }
  }

  /** The vertex points of one line: one per vertex, in order, each carrying the line's attributes. */
  function VertexRowsOf(f: Feature): seq<Row>
  {
    seq(|Vertices(f.geom)|, k requires 0 <= k < |Vertices(f.geom)| => Row(f.attrs, PointGeom(Vertices(f.geom)[k])))
  }

  /** The vertex points of a line layer, line after line; an empty geometry has no vertices and adds none. */
  function VertexRows(fs: seq<Feature>): seq<Row>
  {
    ConcatMap(fs, LineRows)
  }

  /** The points one line contributes: its vertex points, none for an empty geometry. */
  function LineRows(f: Feature): seq<Row>
  {
    if f.geom.NullGeom? then [] else VertexRowsOf(f)
  }

  /** The number of vertices of a line layer. */
  function VertexCount(fs: seq<Feature>): nat
  {
    if |fs| == 0 then 0 else VertexCount(fs[..|fs| - 1]) + |Vertices(fs[|fs| - 1].geom)|
  }

  /** A layer of N vertices gives exactly N points. */
  lemma {:induction false} VertexRowsCount(fs: seq<Feature>)
    ensures |VertexRows(fs)| == VertexCount(fs)
  {
    if |fs| > 0 {
      VertexRowsCount(fs[..|fs| - 1]);
    }
  }

  /**
   * The points of line `i` form one contiguous block, in vertex order, after
   * the points of the lines before it: each point is a vertex of its line and
   * carries that line's attributes.
   */
  lemma VertexRowsBlock(fs: seq<Feature>, i: int)
    requires 0 <= i < |fs|
    ensures VertexRows(fs) == VertexRows(fs[..i]) + VertexRowsOf(fs[i]) + VertexRows(fs[i + 1..])
    ensures forall k :: 0 <= k < |Vertices(fs[i].geom)| ==>
      VertexRowsOf(fs[i])[k].geom == PointGeom(Vertices(fs[i].geom)[k]) && VertexRowsOf(fs[i])[k].attrs == fs[i].attrs
  {
    assert fs == fs[..i] + [fs[i]] + fs[i + 1..];
    ConcatMapConcat(fs[..i] + [fs[i]], fs[i + 1..], LineRows);
    ConcatMapConcat(fs[..i], [fs[i]], LineRows);
    assert [fs[i]][..0] == [];
  }

  /**
   * The vertex form of the point-layer derivation: a new memory layer
   * holding one point per vertex of every line.
   */
  method CreateVertexPointLayer(lines: Layer) returns (points: Sink<Row>)
    ensures fresh(points)
    ensures points.items == VertexRows(lines.features)
  {
    points := new Sink<Row>();
    var i := 0;
    while i < |lines.features|
      invariant 0 <= i <= |lines.features|
      invariant points.items == VertexRows(lines.features[..i])
    {
      var feature := lines.features[i];
      assert lines.features[..i + 1][..i] == lines.features[..i];
      if !feature.geom.NullGeom? {
        var vertices := Vertices(feature.geom);
        var j := 0;
        while j < |vertices|
          invariant 0 <= j <= |vertices|
          invariant points.items == VertexRows(lines.features[..i]) + VertexRowsOf(feature)[..j]
        {
          points.AddFeature(Row(feature.attrs, PointGeom(vertices[j])));
          assert VertexRowsOf(feature)[..j + 1] == VertexRowsOf(feature)[..j] + [Row(feature.attrs, PointGeom(vertices[j]))];
          j := j + 1;
        }
        assert VertexRowsOf(feature)[..j] == VertexRowsOf(feature);
      }
      i := i + 1;
    }
    assert lines.features[..i] == lines.features;
  }

  /**
   * The surface form of the point-layer derivation: one point on the surface
   * of every line, with the line's attributes. A line without a geometry is
   * not skipped: the host hands it an empty geometry, never `None`, and its
   * point is whatever `surface` makes of that.
   */
  method CreateSurfacePointLayer(lines: Layer, surface: Geom -> Geom) returns (points: Sink<Row>)
    ensures fresh(points)
    ensures points.items == SurfaceRows(lines.features, surface)
  {
    points := new Sink<Row>();
    var i := 0;
    while i < |lines.features|
      invariant 0 <= i <= |lines.features|
      invariant points.items == SurfaceRows(lines.features[..i], surface)
    {
      var feature := lines.features[i];
      assert lines.features[..i + 1][..i] == lines.features[..i];
      var point := surface(feature.geom);
      points.AddFeature(Row(feature.attrs, point));
      i := i + 1;
    }
    assert lines.features[..i] == lines.features;
  }

  /** The layer has every field the classification cascade reads. */
  predicate HasCascadeFields(fields: seq<string>)
  {
    && "situacao_fisica" in fields && "material_construcao" in fields && "tipo" in fields
    && "nr_pistas" in fields && "nr_faixas" in fields
  }

  /** The counts as the cascade reads them: both converted, or both 1 when either conversion fails. */
  function CascadeCounts(f: Feature): (int, int)
  {
    match (ParseInt(Get(f, "nr_pistas")), ParseInt(Get(f, "nr_faixas")))
    case (Some(p), Some(q)) => (p, q)
    case _ => (1, 1)
  }

  predicate CountsInconsistent(f: Feature)
  {
    var (p, q) := CascadeCounts(f);
    p > q || p < 1 || q < 1
  }

  /** Type 401 built of material 3. */
  predicate MaterialError(f: Feature)
  {
    Is(Get(f, "tipo"), 401) && Is(Get(f, "material_construcao"), 3)
  }

  /** The verdict the cascade gives a point: later steps overwrite earlier ones. */
  function Classification(f: Feature): string
  {
    if MaterialError(f) || CountsInconsistent(f) then "Erro Material"
    else if Is(Get(f, "situacao_fisica"), 3) then "Correto"
    else if Is(Get(f, "situacao_fisica"), 1) then "Erro Abandono"
    else ""
  }

  /**
   * What each verdict means. Unlike the range rule, the cascade flags a count
   * below 1, but an unreadable count on either side makes both read as 1.
   */
  lemma ClassificationSpec(f: Feature)
    ensures Classification(f) in {"Erro Material", "Correto", "Erro Abandono", ""}
    ensures Classification(f) == "Erro Material" <==> MaterialError(f) || CountsInconsistent(f)
    ensures Classification(f) == "Correto" <==>
      !MaterialError(f) && !CountsInconsistent(f) && Is(Get(f, "situacao_fisica"), 3)
    ensures Classification(f) == "Erro Abandono" <==>
      !MaterialError(f) && !CountsInconsistent(f) && Is(Get(f, "situacao_fisica"), 1)
    ensures ParseInt(Get(f, "nr_pistas")).None? || ParseInt(Get(f, "nr_faixas")).None? ==> !CountsInconsistent(f)
  {
  }

  /** Every range violation with two readable counts is also a cascade error, but not the other way round. */
  lemma CascadeStricterThanRangeRule(f: Feature)
    ensures ParseInt(Get(f, "nr_pistas")).Some? && ParseInt(Get(f, "nr_faixas")).Some? && RangeViolation(f)
      ==> Classification(f) == "Erro Material"
    ensures var g := Feature(1, map["nr_pistas" := IntV(0), "nr_faixas" := IntV(2)], NullGeom);
      Classification(g) == "Erro Material" && !RangeViolation(g)
  {
    var g := Feature(1, map["nr_pistas" := IntV(0), "nr_faixas" := IntV(2)], NullGeom);
    assert CascadeCounts(g) == (0, 2);
  }

  /** The points after the cascade: each one labelled by `Classification`. */
  function Classified(fs: seq<Feature>): (gs: seq<Feature>)
    ensures |gs| == |fs|
  {
    seq(|fs|, i requires 0 <= i < |fs| => SetAttr(fs[i], "Classificacao", StrV(Classification(fs[i]))))
  }

  /** The cascade for one point, step by step. */
  method ClassifyPoint(feature: Feature) returns (verdict: string)
    ensures verdict == Classification(feature)
  {
    var situacao := Get(feature, "situacao_fisica");
    var material := Get(feature, "material_construcao");
    var tipo := Get(feature, "tipo");
    if Is(situacao, 3) {
      verdict := "Correto";
    } else if Is(situacao, 1) {
      verdict := "Erro Abandono";
    } else {
      verdict := "";
    }
    if Is(tipo, 401) && Is(material, 3) {
      verdict := "Erro Material";
    }
    var pistas: int;
    var faixas: int;
    match (ParseInt(Get(feature, "nr_pistas")), ParseInt(Get(feature, "nr_faixas"))) {
      case (Some(p), Some(q)) =>
        pistas, faixas := p, q;
      case _ =>
        pistas, faixas := 1, 1;
    }
    if pistas > faixas || pistas < 1 || faixas < 1 {
      verdict := "Erro Material";
    }
  }


  /**
   * The classification cascade over a point layer, in place. The
   * "Classificacao" field is added when absent; when one of the cascade's
   * fields is missing the layer is left with the new field only; otherwise
   * every point is labelled and nothing else about it changes.
   */
  method AddAndUpdateClassification(layer: VectorLayer)
    modifies layer
    ensures layer.fields == EnsureField(old(layer.fields), "Classificacao")
    ensures HasCascadeFields(old(layer.fields)) ==>
      layer.features == Classified(FeaturesAfterEnsureField(old(layer.fields), old(layer.features), "Classificacao"))
    ensures !HasCascadeFields(old(layer.fields)) ==>
      layer.features == FeaturesAfterEnsureField(old(layer.fields), old(layer.features), "Classificacao")
  {
    if "Classificacao" !in layer.fields {
      layer.AddAttribute("Classificacao");
    }
    assert layer.fields == EnsureField(old(layer.fields), "Classificacao");
    assert layer.features == FeaturesAfterEnsureField(old(layer.fields), old(layer.features), "Classificacao");
    if IndexOf(layer.fields, "situacao_fisica") == -1 || IndexOf(layer.fields, "material_construcao") == -1
      || IndexOf(layer.fields, "tipo") == -1 || IndexOf(layer.fields, "nr_pistas") == -1
      || IndexOf(layer.fields, "nr_faixas") == -1
    {
      return;
    }
    LabelPoints(layer);
  }

  /** The loop of the cascade: every point gets its label, in place. */
  method LabelPoints(layer: VectorLayer)
    modifies layer`features
    ensures layer.features == Classified(old(layer.features))
  {
    var i := 0;
    while i < |layer.features|
      invariant 0 <= i <= |layer.features| == |old(layer.features)|
      invariant forall k :: 0 <= k < i ==>
        layer.features[k] == SetAttr(old(layer.features)[k], "Classificacao", StrV(Classification(old(layer.features)[k])))
      invariant forall k :: i <= k < |layer.features| ==> layer.features[k] == old(layer.features)[k]
    {
      var feature := layer.features[i];
      var verdict := ClassifyPoint(feature);
      layer.UpdateFeature(i, SetAttr(feature, "Classificacao", StrV(verdict)));
      i := i + 1;
    }
    assert layer.features == Classified(old(layer.features));
  }
}
