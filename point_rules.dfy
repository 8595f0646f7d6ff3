/**
 * The point-layer rules of the road-network validator: crossing points
 * shared by several intersections (rule 2), the allowed element types at
 * points common to three layers (rule 3), elements over drainage that lack
 * a drainage point (rule 4), and attribute agreement between type-203
 * elements and the road points on road vertices (rule 5). Every rule writes
 * its findings to a new error layer whose rows carry the feature id and a
 * label.
 */
module PointRules {
  import opened Features
  import opened Host

  /** A row of an error layer: fields "ID" and "Classificacao", geometry copied from the element. */
  function ErrorRow(id: int, verdict: string, geom: Geom): Row
  {
    Row(map["ID" := IntV(id), "Classificacao" := StrV(verdict)], geom)
  }

  lemma ErrorRowInjective(id1: int, id2: int, verdict: string, g1: Geom, g2: Geom)
    ensures ErrorRow(id1, verdict, g1) == ErrorRow(id2, verdict, g2) <==> id1 == id2 && g1 == g2
  {
    if ErrorRow(id1, verdict, g1) == ErrorRow(id2, verdict, g2) {
      assert ErrorRow(id1, verdict, g1).attrs["ID"] == IntV(id1);
    }
  }

  /** One error row per feature, in order. */
  function ErrorRows(fs: seq<Feature>, verdict: string): (rows: seq<Row>)
    ensures |rows| == |fs|
    ensures forall i :: 0 <= i < |fs| ==> rows[i] == ErrorRow(fs[i].id, verdict, fs[i].geom)
  {
    if |fs| == 0 then []
    else ErrorRows(fs[..|fs| - 1], verdict) + [ErrorRow(fs[|fs| - 1].id, verdict, fs[|fs| - 1].geom)]
  }

  /**
   * With unique ids, a feature's error row is written exactly when the rule
   * flags that feature.
   */
  lemma FlaggedRowFor(fs: seq<Feature>, flag: Feature -> bool, verdict: string, f: Feature)
    requires UniqueIds(fs) && f in fs
    ensures ErrorRow(f.id, verdict, f.geom) in ErrorRows(Filter(fs, flag), verdict) <==> flag(f)
  {
    var kept := Filter(fs, flag);
    FilterSpec(fs, flag);
    var rows := ErrorRows(kept, verdict);
    if ErrorRow(f.id, verdict, f.geom) in rows {
      var i :| 0 <= i < |rows| && rows[i] == ErrorRow(f.id, verdict, f.geom);
      ErrorRowInjective(kept[i].id, f.id, verdict, kept[i].geom, f.geom);
      assert kept[i] in fs;
      assert kept[i] == f;
    }
    if flag(f) {
      assert f in kept;
      var i :| 0 <= i < |kept| && kept[i] == f;
      assert rows[i] == ErrorRow(f.id, verdict, f.geom);
    }
  }

  /** Emits the error rows of the features `flag` selects, in layer order. */
  method EmitFlagged(fs: seq<Feature>, flag: Feature -> bool, verdict: string) returns (errors: Sink<Row>)
    ensures fresh(errors)
    ensures errors.items == ErrorRows(Filter(fs, flag), verdict)
  {
    errors := new Sink<Row>();
    var i := 0;
    while i < |fs|
      invariant 0 <= i <= |fs|
      invariant errors.items == ErrorRows(Filter(fs[..i], flag), verdict)
    {
      var feature := fs[i];
      ghost var seen := fs[..i + 1];
      assert seen[..|seen| - 1] == fs[..i] && seen[|seen| - 1] == feature;
      if flag(feature) {
        errors.AddFeature(ErrorRow(feature.id, verdict, feature.geom));
      }
      i := i + 1;
    }
    assert fs[..i] == fs;
  }

  // ---------------------------------------------------------------------------
  // Rule 3

  /** The element types the rules accept: 501, 203 and 401 (set membership, so 203.0 counts). */
  predicate AllowedTipo(v: Value)
  {
    Is(v, 501) || Is(v, 203) || Is(v, 401)
  }

  function Rule3Common(elements: seq<Feature>, roadPoints: seq<Feature>, drainagePoints: seq<Feature>): set<int>
  {
    IdSet(elements) * IdSet(roadPoints) * IdSet(drainagePoints)
  }

  /** Rule 3 flags an element whose id is common to the three layers and whose type is not allowed. */
  function Rule3Flag(common: set<int>): Feature -> bool
  {
    (f: Feature) => f.id in common && !AllowedTipo(Get(f, "tipo"))
  }

  /** Rule 3: the elements flagged by `Rule3Flag`, in layer order, labelled "Erro Regra 3". */
  method Rule3(elements: seq<Feature>, roadPoints: seq<Feature>, drainagePoints: seq<Feature>)
    returns (errors: Sink<Row>)
    ensures fresh(errors)
    ensures errors.items ==
      ErrorRows(Filter(elements, Rule3Flag(Rule3Common(elements, roadPoints, drainagePoints))), "Erro Regra 3")
  {
    var common := IdSet(elements) * IdSet(roadPoints) * IdSet(drainagePoints);
    errors := EmitFlagged(elements, Rule3Flag(common), "Erro Regra 3");
  }

  /** An element of a layer with unique ids gets a rule-3 row exactly when it is common to all three layers and of a disallowed type. */
  lemma Rule3Spec(elements: seq<Feature>, roadPoints: seq<Feature>, drainagePoints: seq<Feature>, e: Feature)
    requires UniqueIds(elements) && e in elements
    ensures ErrorRow(e.id, "Erro Regra 3", e.geom)
      in ErrorRows(Filter(elements, Rule3Flag(Rule3Common(elements, roadPoints, drainagePoints))), "Erro Regra 3")
      <==> e.id in IdSet(roadPoints) && e.id in IdSet(drainagePoints) && !AllowedTipo(Get(e, "tipo"))
  {
    assert e.id in IdSet(elements);
    FlaggedRowFor(elements, Rule3Flag(Rule3Common(elements, roadPoints, drainagePoints)), "Erro Regra 3", e);
  }

  // ---------------------------------------------------------------------------
  // Rule 4

  /**
   * Rule 4 flags an element of an allowed type whose road point (the road
   * point with the same id) has type 2, when no drainage point has that id.
   */
  function Rule4Flag(roadPoints: seq<Feature>, drainageIds: set<int>): Feature -> bool
  {
    (f: Feature) => AllowedTipo(Get(f, "tipo")) && f.id in IdSet(roadPoints)
      && Is(Get(FindById(roadPoints, f.id).value, "tipo"), 2) && f.id !in drainageIds
  }

  /** Rule 4: the elements flagged by `Rule4Flag`, in layer order, labelled "Erro da Regra 4". */
  method Rule4(elements: seq<Feature>, roadPoints: seq<Feature>, drainagePoints: seq<Feature>)
    returns (errors: Sink<Row>)
    ensures fresh(errors)
    ensures errors.items ==
      ErrorRows(Filter(elements, Rule4Flag(roadPoints, IdSet(drainagePoints))), "Erro da Regra 4")
  {
    var drainageIds := IdSet(drainagePoints);
    errors := EmitFlagged(elements, Rule4Flag(roadPoints, drainageIds), "Erro da Regra 4");
  }

  /**
   * With unique ids everywhere, an element gets a rule-4 row exactly when the
   * same-id road point has type 2 and no drainage point shares the id. Rule 4
   * asks for an allowed type and rule 3 for a disallowed one, so no element is
   * flagged by both.
   */
  lemma Rule4Spec(elements: seq<Feature>, roadPoints: seq<Feature>, drainagePoints: seq<Feature>, e: Feature)
    requires UniqueIds(elements) && UniqueIds(roadPoints) && e in elements
    ensures ErrorRow(e.id, "Erro da Regra 4", e.geom)
      in ErrorRows(Filter(elements, Rule4Flag(roadPoints, IdSet(drainagePoints))), "Erro da Regra 4")
      <==> (AllowedTipo(Get(e, "tipo")) && e.id !in IdSet(drainagePoints)
            && exists v :: v in roadPoints && v.id == e.id && Is(Get(v, "tipo"), 2))
  {
    FlaggedRowFor(elements, Rule4Flag(roadPoints, IdSet(drainagePoints)), "Erro da Regra 4", e);
    if exists v :: v in roadPoints && v.id == e.id && Is(Get(v, "tipo"), 2) {
      var v :| v in roadPoints && v.id == e.id && Is(Get(v, "tipo"), 2);
      FindByIdUnique(roadPoints, v);
    }
    if e.id in IdSet(roadPoints) {
      var v := FindById(roadPoints, e.id).value;
      assert v in roadPoints && v.id == e.id;
    }
  }

  // ---------------------------------------------------------------------------
  // Rule 5

  predicate Tipo203(f: Feature)
  {
    Is(Get(f, "tipo"), 203)
  }

  /** The type-203 elements by id; for a repeated id the later element wins, as in a dict comprehension. */
  function Elements203(elements: seq<Feature>): (m: map<int, Feature>)
    ensures forall id :: id in m ==> m[id] in elements && m[id].id == id && Tipo203(m[id])
    ensures forall f :: f in elements && Tipo203(f) ==> f.id in m
  {
    if |elements| == 0 then map[]
    else
      var f := elements[|elements| - 1];
      var rest := Elements203(elements[..|elements| - 1]);
      assert elements == elements[..|elements| - 1] + [f];
      if Tipo203(f) then rest[f.id := f] else rest
  }

  /** The vertices of the road lines, as a set of points. */
  function RoadVertices(roadLines: seq<Feature>): set<Point>
  {
    set l, p | l in roadLines && p in Vertices(l.geom) :: p
  }

  /** Type-203 elements that share their id with a road point and lie on a vertex of a road line. */
  function ValidPoints(elements: seq<Feature>, roadPoints: seq<Feature>, roadLines: seq<Feature>): (ids: set<int>)
    ensures ids <= Elements203(elements).Keys * IdSet(roadPoints)
  {
    var m := Elements203(elements);
    set id | id in m.Keys * IdSet(roadPoints)
      && AsPoint(m[id].geom).Some? && AsPoint(m[id].geom).value in RoadVertices(roadLines)
  }

  /**
   * In an element layer with unique ids, an element's id is a valid point
   * exactly when it has type 203, a road point shares its id, and its point
   * is a vertex of some road line.
   */
  lemma ValidPointsSpec(elements: seq<Feature>, roadPoints: seq<Feature>, roadLines: seq<Feature>, e: Feature)
    requires UniqueIds(elements) && e in elements
    ensures e.id in ValidPoints(elements, roadPoints, roadLines) <==>
      && Tipo203(e)
      && e.id in IdSet(roadPoints)
      && e.geom.PointGeom?
      && (exists l :: l in roadLines && e.geom.p in Vertices(l.geom))
  {
    var m := Elements203(elements);
    if e.id in m {
      assert m[e.id] in elements && m[e.id].id == e.id;
      assert m[e.id] == e;
    }
    if e.geom.PointGeom? && exists l :: l in roadLines && e.geom.p in Vertices(l.geom) {
      var l :| l in roadLines && e.geom.p in Vertices(l.geom);
      assert e.geom.p in RoadVertices(roadLines);
    }
    if e.geom.PointGeom? && e.geom.p in RoadVertices(roadLines) {
      var l :| l in roadLines && e.geom.p in Vertices(l.geom);
    }
  }

  /**
   * `asPoint()` raises for a candidate: some type-203 element that shares its
   * id with a road point is not a single point (NULL, a multi-point or a line),
   * which aborts the rule before its error layer exists.
   */
  predicate Rule5Aborts(elements: seq<Feature>, roadPoints: seq<Feature>)
  {
    var m := Elements203(elements);
    exists id :: id in m && id in IdSet(roadPoints) && !m[id].geom.PointGeom?
  }

  /** In an element layer with unique ids, rule 5 aborts exactly when a type-203 element sharing a road-point id is not a point. */
  lemma Rule5AbortsSpec(elements: seq<Feature>, roadPoints: seq<Feature>)
    requires UniqueIds(elements)
    ensures Rule5Aborts(elements, roadPoints) <==>
      exists e :: e in elements && Tipo203(e) && e.id in IdSet(roadPoints) && !e.geom.PointGeom?
  {
    var m := Elements203(elements);
    if Rule5Aborts(elements, roadPoints) {
      var id :| id in m && id in IdSet(roadPoints) && !m[id].geom.PointGeom?;
      assert m[id] in elements;
    }
    if exists e :: e in elements && Tipo203(e) && e.id in IdSet(roadPoints) && !e.geom.PointGeom? {
      var e :| e in elements && Tipo203(e) && e.id in IdSet(roadPoints) && !e.geom.PointGeom?;
      assert m[e.id] in elements && m[e.id].id == e.id;
      assert m[e.id] == e;
    }
  }

  /** A type-203 element stored as a one-point multi-point, sharing id 7 with a road point, aborts the rule. */
  lemma Rule5AbortsOnMultiPoint(p: Point)
    ensures Rule5Aborts([Feature(7, map["tipo" := IntV(203)], Parts([[p]], true))], [Feature(7, map[], PointGeom(p))])
  {
    var e := Feature(7, map["tipo" := IntV(203)], Parts([[p]], true));
    assert Tipo203(e);
    assert Elements203([e]) == map[7 := e] by {
      assert [e][..0] == [];
    }
    assert 7 in IdSet([Feature(7, map[], PointGeom(p))]);
  }

  /** The element and its road point disagree on a count or on the physical state (Python `!=`). */
  predicate Rule5Mismatch(e: Feature, p: Feature)
  {
    || !PyEq(Get(e, "nr_pistas"), Get(p, "nr_pistas"))
    || !PyEq(Get(e, "nr_faixas"), Get(p, "nr_faixas"))
    || !PyEq(Get(e, "situacao_fisica"), Get(p, "situacao_fisica"))
  }

  /** No element occurs twice. */
  predicate Distinct(s: seq<int>)
  {
    forall i, j :: 0 <= i < j < |s| ==> s[i] != s[j]
  }

  /** A sequence without repetitions is as long as the set of its elements. */
  lemma {:induction false} DistinctCardinality(s: seq<int>)
    requires Distinct(s)
    ensures |set x | x in s| == |s|
  {
    if |s| > 0 {
      var init := s[..|s| - 1];
      var last := s[|s| - 1];
      DistinctCardinality(init);
      assert s == init + [last];
      assert (set x | x in s) == (set x | x in init) + {last};
      assert last !in init;
    }
  }

  /** Of the candidate ids, those whose element and road point disagree. */
  function Mismatched(valid: set<int>, elements203: map<int, Feature>, roadPoints: seq<Feature>): (ids: set<int>)
    requires valid <= elements203.Keys * IdSet(roadPoints)
    ensures ids <= valid
  {
    set id | id in valid && Rule5Mismatch(elements203[id], FindById(roadPoints, id).value)
  }

  /** The ids rule 5 reports. */
  function Rule5Errors(elements: seq<Feature>, roadPoints: seq<Feature>, roadLines: seq<Feature>): (ids: set<int>)
    ensures ids <= ValidPoints(elements, roadPoints, roadLines)
  {
    Mismatched(ValidPoints(elements, roadPoints, roadLines), Elements203(elements), roadPoints)
  }

  /**
   * Rule 5 without ids of the map or the index: in a layer with unique ids, an
   * element is reported exactly when it has type 203, a road point shares its
   * id, its point lies on a road-line vertex, and the two disagree.
   */
  lemma Rule5Spec(elements: seq<Feature>, roadPoints: seq<Feature>, roadLines: seq<Feature>, e: Feature)
    requires UniqueIds(elements) && UniqueIds(roadPoints) && e in elements
    ensures e.id in Rule5Errors(elements, roadPoints, roadLines) <==>
      && Tipo203(e)
      && e.geom.PointGeom?
      && (exists l :: l in roadLines && e.geom.p in Vertices(l.geom))
      && (exists p :: p in roadPoints && p.id == e.id && Rule5Mismatch(e, p))
  {
    var m := Elements203(elements);
    if e.id in m {
      assert m[e.id] in elements && m[e.id].id == e.id;
      assert m[e.id] == e;
    }
    if e.geom.PointGeom? && exists l :: l in roadLines && e.geom.p in Vertices(l.geom) {
      var l :| l in roadLines && e.geom.p in Vertices(l.geom);
      assert e.geom.p in RoadVertices(roadLines);
    }
    if e.geom.PointGeom? && e.geom.p in RoadVertices(roadLines) {
      var l :| l in roadLines && e.geom.p in Vertices(l.geom);
    }
    if exists p :: p in roadPoints && p.id == e.id && Rule5Mismatch(e, p) {
      var p :| p in roadPoints && p.id == e.id && Rule5Mismatch(e, p);
      FindByIdUnique(roadPoints, p);
    }
    if e.id in IdSet(roadPoints) {
      var p := FindById(roadPoints, e.id).value;
      assert p in roadPoints && p.id == e.id;
    }
  }

  /**
   * Rule 5: one "Erro na Regra 5" row per reported id, with the element's
   * geometry. The ids are visited in set order, so only the set of rows is
   * determined.
   */
  method ValidatePoints(elements: seq<Feature>, roadPoints: seq<Feature>, roadLines: seq<Feature>)
    returns (errors: Sink<Row>, ok: bool)
    ensures fresh(errors)
    ensures ok <==> !Rule5Aborts(elements, roadPoints)
    ensures !ok ==> errors.items == []
    ensures ok ==> |errors.items| == |Rule5Errors(elements, roadPoints, roadLines)|
    ensures ok ==> forall r :: r in errors.items <==>
      exists id :: id in Rule5Errors(elements, roadPoints, roadLines) && id in Elements203(elements)
        && r == ErrorRow(id, "Erro na Regra 5", Elements203(elements)[id].geom)
  {
    var elements203 := Elements203(elements);
    if exists id :: id in elements203 && id in IdSet(roadPoints) && !elements203[id].geom.PointGeom? {
      errors := new Sink<Row>();
      return errors, false;
    }
    var valid := ValidPoints(elements, roadPoints, roadLines);
    errors := EmitMismatched(valid, elements203, roadPoints);
    ok := true;
  }

  /** Rows written for distinct ids, one per id of `reported`: the set of rows is the image of `reported`. */
  lemma EmittedRows(emitted: seq<int>, rows: seq<Row>, reported: set<int>, elements203: map<int, Feature>)
    requires EmittedSoFar(emitted, rows, reported, reported, elements203)
    ensures |rows| == |reported|
    ensures forall r :: r in rows <==>
      exists id :: id in reported && id in elements203 && r == ErrorRow(id, "Erro na Regra 5", elements203[id].geom)
  {
    DistinctCardinality(emitted);
    var elems := set x | x in emitted;
    assert forall x :: x in elems <==> x in reported;
    assert elems == reported;
    forall r | r in rows
      ensures exists id :: id in reported && id in elements203 && r == ErrorRow(id, "Erro na Regra 5", elements203[id].geom)
    {
      var k :| 0 <= k < |rows| && rows[k] == r;
      assert emitted[k] in reported;
    }
    forall id | id in reported && id in elements203
      ensures ErrorRow(id, "Erro na Regra 5", elements203[id].geom) in rows
    {
      var k :| 0 <= k < |emitted| && emitted[k] == id;
      assert rows[k] == ErrorRow(id, "Erro na Regra 5", elements203[id].geom);
    }
  }

  /**
   * The loop state of rule 5: `emitted` lists, without repetition, the
   * reported ids among those `done`, and `rows[k]` is the row of `emitted[k]`.
   */
  ghost predicate EmittedSoFar(emitted: seq<int>, rows: seq<Row>, reported: set<int>, done: set<int>,
                               elements203: map<int, Feature>)
  {
    && |emitted| == |rows|
    && (forall x :: x in emitted <==> x in reported && x in done)
    && Distinct(emitted)
    && (forall k :: 0 <= k < |emitted| ==>
          emitted[k] in elements203 && rows[k] == ErrorRow(emitted[k], "Erro na Regra 5", elements203[emitted[k]].geom))
  }

  /** Visiting a new id keeps `EmittedSoFar`, whether or not its row is written. */
  lemma EmittedSoFarStep(emitted: seq<int>, rows: seq<Row>, reported: set<int>, done: set<int>,
                         elements203: map<int, Feature>, id: int)
    requires EmittedSoFar(emitted, rows, reported, done, elements203)
    requires id !in done && id in elements203
    ensures id in reported ==>
      EmittedSoFar(emitted + [id], rows + [ErrorRow(id, "Erro na Regra 5", elements203[id].geom)], reported, done + {id}, elements203)
    ensures id !in reported ==> EmittedSoFar(emitted, rows, reported, done + {id}, elements203)
  {
    if id in reported {
      var e := emitted + [id];
      var r := rows + [ErrorRow(id, "Erro na Regra 5", elements203[id].geom)];
      assert id !in emitted;
      assert forall k :: 0 <= k < |emitted| ==> e[k] == emitted[k] && r[k] == rows[k];
    }
  }

  /** The rows of rule 5 for the candidate ids; the set of rows is the image of the mismatched ids. */
  method EmitMismatched(valid: set<int>, elements203: map<int, Feature>, roadPoints: seq<Feature>)
    returns (errors: Sink<Row>)
    requires valid <= elements203.Keys * IdSet(roadPoints)
    ensures fresh(errors)
    ensures |errors.items| == |Mismatched(valid, elements203, roadPoints)|
    ensures forall r :: r in errors.items <==>
      exists id :: id in Mismatched(valid, elements203, roadPoints) && id in elements203
        && r == ErrorRow(id, "Erro na Regra 5", elements203[id].geom)
  {
    ghost var emitted;
    errors, emitted := VisitCandidates(valid, elements203, roadPoints);
    EmittedRows(emitted, errors.items, Mismatched(valid, elements203, roadPoints), elements203);
  }

  /** The loop of rule 5 over the candidate ids, in whatever order the set yields them. */
  method VisitCandidates(valid: set<int>, elements203: map<int, Feature>, roadPoints: seq<Feature>)
    returns (errors: Sink<Row>, ghost emitted: seq<int>)
    requires valid <= elements203.Keys * IdSet(roadPoints)
    ensures fresh(errors)
    ensures EmittedSoFar(emitted, errors.items, Mismatched(valid, elements203, roadPoints), valid, elements203)
  {
    ghost var reported := Mismatched(valid, elements203, roadPoints);
    errors := new Sink<Row>();
    var todo := valid;
    ghost var done: set<int> := {};
    emitted := [];
    while todo != {}
      invariant todo <= valid && done == valid - todo
      invariant EmittedSoFar(emitted, errors.items, reported, done, elements203)
      decreases |todo|
    {
      var id :| id in todo;
      var element := elements203[id];
      var roadPoint := FindById(roadPoints, id).value;
      EmittedSoFarStep(emitted, errors.items, reported, done, elements203, id);
      if Rule5Mismatch(element, roadPoint) {
        assert id in reported;
        errors.AddFeature(ErrorRow(id, "Erro na Regra 5", element.geom));
        emitted := emitted + [id];
      } else {
        assert id !in reported;
      }
      todo := todo - {id};
      done := done + {id};
    }
  }

  // ---------------------------------------------------------------------------
  // Rule 2

  /** How many of the intersection points are exactly `p`. */
  function Occurrences(points: seq<Point>, p: Point): nat
  {
    if |points| == 0 then 0
    else Occurrences(points[..|points| - 1], p) + (if points[|points| - 1] == p then 1 else 0)
  }

  lemma {:induction false} OccurrencesPositive(points: seq<Point>, p: Point)
    ensures Occurrences(points, p) > 0 <==> p in points
  {
    if |points| > 0 {
      OccurrencesPositive(points[..|points| - 1], p);
      assert points == points[..|points| - 1] + [points[|points| - 1]];
    }
  }

  /** The distinct points in order of first occurrence: the key order of the grouping dict. */
  function KeyOrder(points: seq<Point>): seq<Point>
  {
    if |points| == 0 then []
    else
      var keys := KeyOrder(points[..|points| - 1]);
      if points[|points| - 1] in keys then keys else keys + [points[|points| - 1]]
  }

  lemma {:induction false} KeyOrderSpec(points: seq<Point>)
    ensures forall p :: p in KeyOrder(points) <==> p in points
    ensures forall i, j :: 0 <= i < j < |KeyOrder(points)| ==> KeyOrder(points)[i] != KeyOrder(points)[j]
  {
    if |points| > 0 {
      KeyOrderSpec(points[..|points| - 1]);
      assert points == points[..|points| - 1] + [points[|points| - 1]];
    }
  }

  const MultipleLabel := "Interseção múltipla"

  /** The error row for an intersection point: field "erro" and the point itself. */
  function MultipleRow(p: Point): Row
  {
    Row(map["erro" := StrV(MultipleLabel)], PointGeom(p))
  }

  function Repeat(r: Row, n: nat): (rows: seq<Row>)
    ensures |rows| == n && forall i :: 0 <= i < n ==> rows[i] == r
  {
    seq(n, _ => r)
  }

  /** The rows for the keys `keys`, in key order: every point shared by several intersections, once per intersection. */
  function MultipleRows(points: seq<Point>, keys: seq<Point>): seq<Row>
  {
    if |keys| == 0 then []
    else
      var k := keys[|keys| - 1];
      MultipleRows(points, keys[..|keys| - 1])
        + (if Occurrences(points, k) > 1 then Repeat(MultipleRow(k), Occurrences(points, k)) else [])
  }

  /** The number of rows placed at point `p`. */
  function RowsAt(rows: seq<Row>, p: Point): nat
  {
    if |rows| == 0 then 0
    else RowsAt(rows[..|rows| - 1], p) + (if rows[|rows| - 1].geom == PointGeom(p) then 1 else 0)
  }

  lemma {:induction false} RowsAtConcat(a: seq<Row>, b: seq<Row>, p: Point)
    ensures RowsAt(a + b, p) == RowsAt(a, p) + RowsAt(b, p)
  {
    if |b| == 0 {
      assert a + b == a;
    } else {
      var b' := b[..|b| - 1];
      var ab := (a + b') + [b[|b| - 1]];
      assert a + b == ab;
      assert ab[..|ab| - 1] == a + b';
      RowsAtConcat(a, b', p);
    }
  }

  lemma {:induction false} RowsAtRepeat(q: Point, n: nat, p: Point)
    ensures RowsAt(Repeat(MultipleRow(q), n), p) == if q == p then n else 0
  {
    if n > 0 {
      RowsAtRepeat(q, n - 1, p);
      assert Repeat(MultipleRow(q), n)[..n - 1] == Repeat(MultipleRow(q), n - 1);
    }
  }

  /** Over distinct keys, the rows at `p` number the occurrences of `p` when `p` is a key seen more than once, and none otherwise. */
  lemma {:induction false} MultipleRowsAt(points: seq<Point>, keys: seq<Point>, p: Point)
    requires forall i, j :: 0 <= i < j < |keys| ==> keys[i] != keys[j]
    ensures RowsAt(MultipleRows(points, keys), p) ==
      if p in keys && Occurrences(points, p) > 1 then Occurrences(points, p) else 0
  {
    if |keys| > 0 {
      var k := keys[|keys| - 1];
      var init := keys[..|keys| - 1];
      assert keys == init + [k];
      MultipleRowsAt(points, init, p);
      var tail := if Occurrences(points, k) > 1 then Repeat(MultipleRow(k), Occurrences(points, k)) else [];
      RowsAtConcat(MultipleRows(points, init), tail, p);
      if Occurrences(points, k) > 1 {
        RowsAtRepeat(k, Occurrences(points, k), p);
      }
      assert k in init ==> false;
    }
  }

  /**
   * Rule 2's outcome: a point shared by two or more intersections gets one
   * row per intersection there, and a point hit once gets none.
   */
  lemma MultipleIntersectionsSpec(points: seq<Point>, p: Point)
    ensures RowsAt(MultipleRows(points, KeyOrder(points)), p) ==
      if Occurrences(points, p) > 1 then Occurrences(points, p) else 0
  {
    KeyOrderSpec(points);
    OccurrencesPositive(points, p);
    MultipleRowsAt(points, KeyOrder(points), p);
  }

  /**
   * The grouping loop of rule 2: the sizes of the groups of equal points,
   * and the keys in the order the dict first saw them.
   */
  method GroupByPosition(points: seq<Point>) returns (groups: map<Point, nat>, keys: seq<Point>)
    ensures keys == KeyOrder(points)
    ensures forall p :: p in groups <==> p in points
    ensures forall p :: p in groups ==> groups[p] == Occurrences(points, p)
  {
    groups := map[];
    keys := [];
    var i := 0;
    while i < |points|
      invariant 0 <= i <= |points|
      invariant keys == KeyOrder(points[..i])
      invariant forall p :: p in groups <==> p in points[..i]
      invariant forall p :: p in groups ==> groups[p] == Occurrences(points[..i], p)
    {
      var key := points[i];
      ghost var seen := points[..i + 1];
      assert seen[..|seen| - 1] == points[..i] && seen[|seen| - 1] == key;
      KeyOrderSpec(points[..i]);
      if key in groups {
        groups := groups[key := groups[key] + 1];
      } else {
        groups := groups[key := 1];
        keys := keys + [key];
        OccurrencesPositive(points[..i], key);
      }
      i := i + 1;
    }
    assert points[..i] == points;
  }

  /**
   * Rule 2: groups the intersection points by position (the lists of the
   * grouping dict are kept as their lengths) and writes, in key order, one
   * row per member of every group with more than one member.
   */
  method DetectMultipleIntersections(points: seq<Point>) returns (errors: Sink<Row>)
    ensures fresh(errors)
    ensures errors.items == MultipleRows(points, KeyOrder(points))
  {
    var groups, keys := GroupByPosition(points);
    KeyOrderSpec(points);
    errors := new Sink<Row>();
    var j := 0;
    while j < |keys|
      invariant 0 <= j <= |keys|
      invariant errors.items == MultipleRows(points, keys[..j])
    {
      var key := keys[j];
      assert keys[..j + 1][..j] == keys[..j];
      var n := groups[key];
      if n > 1 {
        var m := 0;
        while m < n
          invariant 0 <= m <= n
          invariant errors.items == MultipleRows(points, keys[..j]) + Repeat(MultipleRow(key), m)
        {
          errors.AddFeature(MultipleRow(key));
          assert Repeat(MultipleRow(key), m + 1) == Repeat(MultipleRow(key), m) + [MultipleRow(key)];
          m := m + 1;
        }
      }
      j := j + 1;
    }
    assert keys[..j] == keys;
  }
}
