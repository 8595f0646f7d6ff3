/**
 * Contour classification: the contours whose elevation (`cota`) is a multiple
 * of the scale's equidistance are copied to a new layer and tagged 'mestra'
 * (a multiple of five equidistances) or 'normal'; the others are dropped.
 */
module Contours {
  import opened Features
  import opened Host

  /** The scales offered by the scale parameter, in parameter order. */
  const Scales: seq<string> := ["1:25.000", "1:50.000", "1:100.000", "1:250.000"]

  /** The contour interval of a scale; any other text yields nothing (Python's implicit `None`). */
  function Equidistance(scale: string): Option<int>
  {
    if scale == "1:25.000" then Some(10)
    else if scale == "1:50.000" then Some(20)
    else if scale == "1:100.000" then Some(50)
    else if scale == "1:250.000" then Some(100)
    else None
  }

  /** Every scale the parameter can select has a positive interval, and the intervals are the published ones. */
  lemma EquidistanceTable()
    ensures forall i :: 0 <= i < |Scales| ==> Equidistance(Scales[i]).Some? && Equidistance(Scales[i]).value > 0
    ensures Equidistance(Scales[0]) == Some(10) && Equidistance(Scales[1]) == Some(20)
    ensures Equidistance(Scales[2]) == Some(50) && Equidistance(Scales[3]) == Some(100)
    ensures Equidistance("1:10.000") == None
  {
  }

  /** A number Python's `%` accepts. */
  predicate Numeric(v: Value)
  {
    v.IntV? || v.RealV?
  }

  /**
   * `v % m == 0` for a positive integer `m`: Python's remainder takes the
   * divisor's sign, so for a positive divisor it is zero exactly when `v` is
   * a whole multiple of `m`. Text and NULL raise a TypeError (None here).
   */
  function MultipleOf(v: Value, m: int): (r: Option<bool>)
    requires m > 0
    ensures r.Some? <==> Numeric(v)
  {
    match v
    case IntV(i) => Some(i % m == 0)
    case RealV(x) => Some((x / m as real).Floor as real == x / m as real)
    case _ => None
  }

  lemma MultipleOfMultiple(m: int, q: int)
    requires m > 0
    ensures (m * q) % m == 0
  {
    var d := (m * q) / m;
    var r := (m * q) % m;
    assert m * q == m * d + r && 0 <= r < m;
    assert m * (q - d) == r;
    if q - d >= 1 {
      ScaleAtLeast(m, q - d, 1);
      assert false;
    } else if q - d <= -1 {
      ScaleAtLeast(m, -1, q - d);
      assert false;
    }
  }

  /** A multiple of five intervals is a multiple of one interval: every 'mestra' contour is kept. */
  lemma MestraIsMultiple(v: Value, m: int)
    requires m > 0 && MultipleOf(v, 5 * m) == Some(true)
    ensures MultipleOf(v, m) == Some(true)
  {
    match v {
      case IntV(i) =>
        var k := i / (5 * m);
        assert i == (5 * m) * k;
        assert i == m * (5 * k);
        MultipleOfMultiple(m, 5 * k);
      case RealV(x) =>
        var k := (x / (5 * m) as real).Floor;
        assert x / (5 * m) as real == k as real;
        assert x == (5 * m) as real * k as real;
        assert x / m as real == (5 * k) as real;
      case _ =>
    }
  }

  /** The tag of a kept contour. */
  function Tipo(cota: Value, eq: int): string
    requires eq > 0
  {
    if MultipleOf(cota, 5 * eq) == Some(true) then "mestra" else "normal"
  }

  /** The copied contour: every input field's value, then `tipo`, on the input geometry. */
  function CopyRow(f: Feature, fields: seq<string>, tipo: string): Row
  {
    Row((map n | n in fields :: Get(f, n))["tipo" := StrV(tipo)], f.geom)
  }

  /** What the loop adds for one contour, or the TypeError it raises. */
  function ContourRecord(f: Feature, fields: seq<string>, eq: int): Option<seq<Row>>
    requires eq > 0
  {
    var cota := Get(f, "cota");
    match MultipleOf(cota, eq)
    case None => None
    case Some(kept) => if kept then Some([CopyRow(f, fields, Tipo(cota, eq))]) else Some([])
  }

  /** The contours added by the loop in order, or None when some elevation is not a number. */
  function ContourRows(fs: seq<Feature>, fields: seq<string>, eq: int): Option<seq<Row>>
    requires eq > 0
  {
    if |fs| == 0 then Some([])
    else
      match (ContourRows(fs[..|fs| - 1], fields, eq), ContourRecord(fs[|fs| - 1], fields, eq))
      case (Some(init), Some(last)) => Some(init + last)
      case _ => None
  }

  /** A contour is kept: its elevation is a multiple of the interval. */
  function Kept(eq: int): Feature -> bool
    requires eq > 0
  {
    (f: Feature) => MultipleOf(Get(f, "cota"), eq) == Some(true)
  }

  /**
   * The loop fails exactly when some elevation is not a number; otherwise its
   * output is the kept contours, in input order, each copied with its tag.
   */
  lemma {:induction false} ContourRowsSpec(fs: seq<Feature>, fields: seq<string>, eq: int)
    requires eq > 0
    ensures ContourRows(fs, fields, eq).None? <==> exists f :: f in fs && !Numeric(Get(f, "cota"))
    ensures ContourRows(fs, fields, eq).Some? ==>
      var kept := Filter(fs, Kept(eq));
      var rows := ContourRows(fs, fields, eq).value;
      |rows| == |kept| && forall i :: 0 <= i < |rows| ==> rows[i] == CopyRow(kept[i], fields, Tipo(Get(kept[i], "cota"), eq))
  {
    if |fs| > 0 {
      var init := fs[..|fs| - 1];
      var f := fs[|fs| - 1];
      assert fs == init + [f];
      ContourRowsSpec(init, fields, eq);
      FilterSnoc(init, f, Kept(eq));
      if exists g :: g in init && !Numeric(Get(g, "cota")) {
        var g :| g in init && !Numeric(Get(g, "cota"));
        assert g in fs;
      }
    }
  }

  /** The output has at most as many contours as the input, and every tag is 'mestra' or 'normal'. */
  lemma ContourRowsBounds(fs: seq<Feature>, fields: seq<string>, eq: int)
    requires eq > 0 && ContourRows(fs, fields, eq).Some?
    ensures |ContourRows(fs, fields, eq).value| <= |fs|
    ensures forall r :: r in ContourRows(fs, fields, eq).value ==>
      "tipo" in r.attrs && (r.attrs["tipo"] == StrV("mestra") || r.attrs["tipo"] == StrV("normal"))
  {
    ContourRowsSpec(fs, fields, eq);
    FilterSpec(fs, Kept(eq));
  }

  /** With interval 20: elevation 100 is 'mestra', 120 is 'normal', 115 is dropped, 100.0 is 'mestra'. */
  lemma ContourScenarios(fields: seq<string>, g: Geom)
    ensures ContourRecord(Feature(1, map["cota" := IntV(100)], g), fields, 20).value[0].attrs["tipo"] == StrV("mestra")
    ensures ContourRecord(Feature(2, map["cota" := IntV(120)], g), fields, 20).value[0].attrs["tipo"] == StrV("normal")
    ensures ContourRecord(Feature(3, map["cota" := IntV(115)], g), fields, 20) == Some([])
    ensures ContourRecord(Feature(4, map["cota" := RealV(100.0)], g), fields, 20).value[0].attrs["tipo"] == StrV("mestra")
    ensures ContourRecord(Feature(5, map["cota" := StrV("100")], g), fields, 20) == None
  {
    assert (100.0 / 20 as real) == 5.0;
    assert (100.0 / 100 as real) == 1.0;
  }

  /** The classification loop over the contour layer. */
  method CopyContours(contours: Layer, eq: int, out: Sink<Row>) returns (ok: bool)
    requires eq > 0
    modifies out
    ensures ok <==> ContourRows(contours.features, contours.fields, eq).Some?
    ensures ok ==> out.items == old(out.items) + ContourRows(contours.features, contours.fields, eq).value
  {
    var fs := contours.features;
    var i := 0;
    while i < |fs|
      invariant 0 <= i <= |fs|
      invariant ContourRows(fs[..i], contours.fields, eq).Some?
      invariant out.items == old(out.items) + ContourRows(fs[..i], contours.fields, eq).value
    {
      var f := fs[i];
      assert fs[..i + 1][..i] == fs[..i];
      var cota := Get(f, "cota");
      if !Numeric(cota) {
        assert ContourRows(fs[..i + 1], contours.fields, eq).None?;
        ContourRowsPrefix(fs, i + 1, contours.fields, eq);
        return false;
      }
      var kept := MultipleOf(cota, eq).value;
      if kept {
        var tipo := if MultipleOf(cota, 5 * eq).value then "mestra" else "normal";
        out.AddFeature(CopyRow(f, contours.fields, tipo));
      }
      i := i + 1;
    }
    assert fs[..i] == fs;
    return true;
  }

  /** A failure on a prefix is a failure of the whole layer. */
  lemma {:induction false} ContourRowsPrefix(fs: seq<Feature>, n: nat, fields: seq<string>, eq: int)
    requires eq > 0 && n <= |fs| && ContourRows(fs[..n], fields, eq).None?
    ensures ContourRows(fs, fields, eq).None?
  {
    if n < |fs| {
      assert fs[..|fs| - 1][..n] == fs[..n];
      ContourRowsPrefix(fs[..|fs| - 1], n, fields, eq);
    } else {
      assert fs[..n] == fs;
    }
  }

  /**
   * The contour step of the algorithm: the interval of the chosen scale, the
   * copy loop into a new memory layer, and the warning when it is empty.
   */
  method ClassifyContours(contours: Layer, scaleIndex: int) returns (out: Sink<Row>, ok: bool, warned: bool)
    requires 0 <= scaleIndex < |Scales|
    ensures fresh(out)
    ensures var eq := Equidistance(Scales[scaleIndex]).value;
      eq > 0 && (ok <==> ContourRows(contours.features, contours.fields, eq).Some?)
      && (ok ==> out.items == ContourRows(contours.features, contours.fields, eq).value && (warned <==> out.items == []))
  {
    EquidistanceTable();
    var eq := Equidistance(Scales[scaleIndex]).value;
    out := new Sink<Row>();
    ok := CopyContours(contours, eq, out);
    warned := ok && |out.items| == 0;
  }
}
