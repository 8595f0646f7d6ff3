/**
 * Attribute values, geometries and features shared by every validation rule,
 * together with the parts of Python's behaviour the rules lean on: `int()` on
 * an attribute value and `==` between attribute values (which is also how
 * dict and set keys are matched).
 */
module Features {

  datatype Option<T> = None | Some(value: T)

  datatype Result<T> = Success(value: T) | Failure(error: string)

  /** An attribute value as a layer stores it: integer, real, text or NULL. */
  datatype Value = IntV(i: int) | RealV(r: real) | StrV(s: string) | Null

  /** A coordinate pair. Coordinates are compared by exact equality, as the rules do. */
  datatype Point = Point(x: real, y: real)

  /**
   * A geometry: absent, a single point, or a list of parts (the line strings
   * of a line, the rings of a polygon), flagged multipart or not.
   */
  datatype Geom =
    | NullGeom
    | PointGeom(p: Point)
    | Parts(parts: seq<seq<Point>>, multipart: bool)

  /** A feature of a layer: its id, its attributes by field name, its geometry. */
  datatype Feature = Feature(id: int, attrs: map<string, Value>, geom: Geom)

  /** A feature handed to an output provider, before the provider gives it an id. */
  datatype Row = Row(attrs: map<string, Value>, geom: Geom)

  /** A read-only input layer: its field names and its features in iteration order. */
  datatype Layer = Layer(fields: seq<string>, features: seq<Feature>)

  /** `feature[name]`; a field the feature does not carry reads as NULL. */
  function Get(f: Feature, name: string): Value
  {
    if name in f.attrs then f.attrs[name] else Null
  }

  /** The feature with one attribute set, as `setAttribute` does. */
  function SetAttr(f: Feature, name: string, v: Value): (g: Feature)
    ensures g.id == f.id && g.geom == f.geom
    ensures Get(g, name) == v
    ensures forall n :: n != name ==> Get(g, n) == Get(f, n)
  {
    f.(attrs := f.attrs[name := v])
  }

  // ---------------------------------------------------------------------------
  // Python equality between attribute values

  /** The canonical form of a value: a real with no fractional part is the integer it equals. */
  function Norm(v: Value): Value
  {
    if v.RealV? && v.r == v.r.Floor as real then IntV(v.r.Floor) else v
  }

  /**
   * Python's `==` on attribute values: integers and reals compare by number,
   * text only equals text, NULL equals NULL. Dict and set keys that are `==`
   * have equal hashes, so they are the same key; `Norm` is that key.
   */
  predicate PyEq(a: Value, b: Value)
  {
    Norm(a) == Norm(b)
  }

  /** `v == k` for an integer constant `k`. */
  predicate Is(v: Value, k: int)
  {
    PyEq(v, IntV(k))
  }

  lemma PyEqNumeric(i: int, r: real)
    ensures PyEq(IntV(i), RealV(r)) <==> i as real == r
  {
    if i as real == r {
      assert r.Floor == i;
    }
  }

  lemma PyEqIsEquivalence(a: Value, b: Value, c: Value)
    ensures PyEq(a, a)
    ensures PyEq(a, b) ==> PyEq(b, a)
    ensures PyEq(a, b) && PyEq(b, c) ==> PyEq(a, c)
  {
  }

  // ---------------------------------------------------------------------------
  // Python's int() on an attribute value

  /** Truncation toward zero, as `int()` does to a float. */
  function Trunc(r: real): (n: int)
    ensures r >= 0.0 ==> n as real <= r < n as real + 1.0
    ensures r < 0.0 ==> n as real - 1.0 < r <= n as real
  {
    if r >= 0.0 then r.Floor else -((-r).Floor)
  }

  /**
   * The characters `int()` strips around a number: Python's whitespace, that
   * is the ASCII separators and controls `\t`..`\r` and `\x1c`..`\x1f`, the
   * space, and the Unicode spaces and line or paragraph separators.
   */
  predicate IsSpace(c: char)
  {
    || c == ' ' || '\t' <= c <= '\r' || '\U{1c}' <= c <= '\U{1f}'
    || c == '\U{85}' || c == '\U{a0}' || c == '\U{1680}' || '\U{2000}' <= c <= '\U{200a}'
    || c == '\U{2028}' || c == '\U{2029}' || c == '\U{202f}' || c == '\U{205f}' || c == '\U{3000}'
  }

  predicate IsDigit(c: char)
  {
    '0' <= c <= '9'
  }

  predicate AllDigits(s: string)
  {
    forall k :: 0 <= k < |s| ==> IsDigit(s[k])
  }

  /** `lstrip()`: the suffix left after the leading whitespace, all of which is removed. */
  function StripLeft(s: string): (t: string)
    ensures |t| <= |s| && t == s[|s| - |t|..]
    ensures forall k :: 0 <= k < |s| - |t| ==> IsSpace(s[k])
    ensures |t| > 0 ==> !IsSpace(t[0])
  {
    if |s| > 0 && IsSpace(s[0]) then StripLeft(s[1..]) else s
  }

  /** `rstrip()`: the prefix left before the trailing whitespace, all of which is removed. */
  function StripRight(s: string): (t: string)
    ensures |t| <= |s| && t == s[..|t|]
    ensures forall k :: |t| <= k < |s| ==> IsSpace(s[k])
    ensures |t| > 0 ==> !IsSpace(t[|t| - 1])
  {
    if |s| > 0 && IsSpace(s[|s| - 1]) then StripRight(s[..|s| - 1]) else s
  }

  /** The value of a run of decimal digits. */
  function DigitsValue(d: string): nat
    requires AllDigits(d)
  {
    if |d| == 0 then 0 else 10 * DigitsValue(d[..|d| - 1]) + (d[|d| - 1] - '0') as nat
  }

  /**
   * `int(s)` on text: surrounding white space, an optional sign, then one or
   * more decimal digits; anything else raises ValueError (here: None).
   */
  function ParseDecimal(s: string): Option<int>
  {
    var t := StripRight(StripLeft(s));
    if |t| > 1 && (t[0] == '-' || t[0] == '+') && AllDigits(t[1..]) then
      var v: int := DigitsValue(t[1..]);
      Some(if t[0] == '-' then -v else v)
    else if |t| > 0 && AllDigits(t) then
      Some(DigitsValue(t))
    else
      None
  }

  /** `int(v)`: None stands for the TypeError or ValueError it raises. */
  function ParseInt(v: Value): Option<int>
  {
    match v
    case IntV(i) => Some(i)
    case RealV(r) => Some(Trunc(r))
    case StrV(s) => ParseDecimal(s)
    case Null => None
  }

  /** `str(n)` for a natural number. */
  function Digits(n: nat): string
  {
    if n < 10 then [('0' as int + n) as char] else Digits(n / 10) + [('0' as int + n % 10) as char]
  }

  /** `str(n)`. */
  function Decimal(n: int): string
  {
    if n < 0 then "-" + Digits(-n) else Digits(n)
  }

  lemma {:induction false} DigitsRoundTrip(n: nat)
    ensures |Digits(n)| > 0 && AllDigits(Digits(n))
    ensures DigitsValue(Digits(n)) == n
  {
    if n >= 10 {
      DigitsRoundTrip(n / 10);
      var d := Digits(n);
      assert d[..|d| - 1] == Digits(n / 10);
    }
  }

  lemma StripNothing(s: string)
    requires |s| > 0 && !IsSpace(s[0]) && !IsSpace(s[|s| - 1])
    ensures StripRight(StripLeft(s)) == s
  {
  }

  /** A count written as text is read back as that count: `int(str(n)) == n`. */
  lemma ParseIntOfDecimal(n: int)
    ensures ParseInt(StrV(Decimal(n))) == Some(n)
  {
    var m: nat := if n < 0 then -n else n;
    DigitsRoundTrip(m);
    var s := Decimal(n);
    StripNothing(s);
    if n < 0 {
      assert s[1..] == Digits(m);
    }
  }

  /** Text surrounded by one whitespace character on each side strips to itself. */
  lemma StripAround(c: char, t: string, e: char)
    requires IsSpace(c) && IsSpace(e) && |t| > 0 && !IsSpace(t[0]) && !IsSpace(t[|t| - 1])
    ensures StripRight(StripLeft([c] + t + [e])) == t
  {
    var s := [c] + t + [e];
    assert s[1..] == t + [e];
    assert StripLeft(s) == StripLeft(t + [e]) == t + [e];
    assert (t + [e])[..|t|] == t;
    assert StripRight(t + [e]) == StripRight(t) == t;
  }

  /** The value of a single digit. */
  lemma DigitValue(d: char)
    requires IsDigit(d)
    ensures AllDigits([d]) && DigitsValue([d]) == (d - '0') as int
  {
    assert [d][..0] == [];
  }

  /** A digit between two whitespace characters reads as that digit. */
  lemma ParsePaddedDigit(c: char, d: char, e: char)
    requires IsSpace(c) && IsDigit(d) && IsSpace(e)
    ensures ParseInt(StrV([c, d, e])) == Some((d - '0') as int)
  {
    DigitValue(d);
    StripAround(c, [d], e);
    assert [c, d, e] == [c] + [d] + [e];
  }

  /** `int()` strips every kind of Python whitespace, here a vertical tab and a form feed. */
  lemma ParseIntStripsControls(d: char)
    requires IsDigit(d)
    ensures ParseInt(StrV(['\U{0b}', d, '\U{0c}'])) == Some((d - '0') as int)
  {
    ParsePaddedDigit('\U{0b}', d, '\U{0c}');
  }

  /** `int()` strips a unit separator and a no-break space around a signed number. */
  lemma ParseIntStripsSeparators(d: char)
    requires IsDigit(d)
    ensures ParseInt(StrV(['\U{1f}', '-', d, '\U{a0}'])) == Some(-((d - '0') as int))
  {
    DigitValue(d);
    var s := ['\U{1f}', '-', d, '\U{a0}'];
    var t := ['-', d];
    assert s == ['\U{1f}'] + t + ['\U{a0}'];
    StripAround('\U{1f}', t, '\U{a0}');
    assert t[1..] == [d];
    assert ParseDecimal(s) == Some(-(DigitsValue([d]) as int));
  }

  // ---------------------------------------------------------------------------
  // Geometry

  function Flatten(ps: seq<seq<Point>>): seq<Point>
  {
    if |ps| == 0 then [] else ps[0] + Flatten(ps[1..])
  }

  /** `geometry.vertices()`, in order. */
  function Vertices(g: Geom): seq<Point>
  {
    match g
    case NullGeom => []
    case PointGeom(p) => [p]
    case Parts(ps, _) => Flatten(ps)
  }

  /** `geometry.asPoint()`; None for a geometry that is not a single point. */
  function AsPoint(g: Geom): (p: Option<Point>)
    ensures p.Some? <==> g.PointGeom?
    ensures p.Some? ==> Vertices(g) == [p.value]
  {
    if g.PointGeom? then Some(g.p) else None
  }

  // ---------------------------------------------------------------------------
  // Layers, ids and fields

  /** The ids of a layer's features. */
  function IdSet(fs: seq<Feature>): set<int>
  {
    set f | f in fs :: f.id
  }

  predicate UniqueIds(fs: seq<Feature>)
  {
    forall i, j :: 0 <= i < j < |fs| ==> fs[i].id != fs[j].id
  }

  /** `layer.getFeature(id)`: the feature with that id, if there is one. */
  function FindById(fs: seq<Feature>, id: int): (r: Option<Feature>)
    ensures r.Some? ==> r.value in fs && r.value.id == id
    ensures r.None? <==> id !in IdSet(fs)
  {
    if |fs| == 0 then None
    else if fs[0].id == id then Some(fs[0])
    else
      var r := FindById(fs[1..], id);
      assert r.None? ==> IdSet(fs) == IdSet(fs[1..]) + {fs[0].id} by {
        assert fs == [fs[0]] + fs[1..];
      }
      r
  }

  lemma {:induction false} FindByIdUnique(fs: seq<Feature>, f: Feature)
    requires UniqueIds(fs) && f in fs
    ensures FindById(fs, f.id) == Some(f)
  {
    if fs[0] != f {
      assert f in fs[1..];
      assert fs[0].id != f.id by {
        var j :| 0 <= j < |fs| && fs[j] == f;
      }
      FindByIdUnique(fs[1..], f);
    }
  }

  /** `fields().indexOf(name)`: the first position of `name`, or -1. */
  function IndexOf(fields: seq<string>, name: string): (idx: int)
    ensures -1 <= idx < |fields|
    ensures idx == -1 <==> name !in fields
    ensures idx >= 0 ==> fields[idx] == name && name !in fields[..idx]
  {
    if |fields| == 0 then -1
    else if fields[0] == name then 0
    else
      var k := IndexOf(fields[1..], name);
      assert fields == [fields[0]] + fields[1..];
      if k == -1 then -1 else k + 1
  }

  /** The field list after "add the field unless `indexOf` finds it". */
  function EnsureField(fields: seq<string>, name: string): seq<string>
  {
    if IndexOf(fields, name) == -1 then fields + [name] else fields
  }

  /** Adding a field that is already there changes nothing, so a second run reuses it. */
  lemma EnsureFieldIdempotent(fields: seq<string>, name: string)
    ensures name in EnsureField(fields, name)
    ensures EnsureField(EnsureField(fields, name), name) == EnsureField(fields, name)
    ensures name in fields ==> EnsureField(fields, name) == fields
  {
  }

  /** The features after "add the field unless it is there": a new field reads NULL everywhere. */
  function FeaturesAfterEnsureField(fields: seq<string>, fs: seq<Feature>, name: string): seq<Feature>
  {
    if name in fields then fs else WithNullAttribute(fs, name)
  }

  /** The features after a new field is added: every feature holds NULL in it. */
  function WithNullAttribute(fs: seq<Feature>, name: string): (gs: seq<Feature>)
    ensures |gs| == |fs|
    ensures forall i :: 0 <= i < |fs| ==> gs[i] == SetAttr(fs[i], name, Null)
  {
    seq(|fs|, i requires 0 <= i < |fs| => SetAttr(fs[i], name, Null))
  }

  // ---------------------------------------------------------------------------
  // Filtering, the shape of every "keep what the rule flags" loop

  function Filter<T>(s: seq<T>, keep: T -> bool): seq<T>
  {
    if |s| == 0 then [] else Filter(s[..|s| - 1], keep) + (if keep(s[|s| - 1]) then [s[|s| - 1]] else [])
  }

  /** `a` is `b` with some elements left out, the rest in the same order. */
  predicate IsSubsequence<T(==)>(a: seq<T>, b: seq<T>)
  {
    if |a| == 0 then true
    else if |b| == 0 then false
    else
      || IsSubsequence(a, b[..|b| - 1])
      || (a[|a| - 1] == b[|b| - 1] && IsSubsequence(a[..|a| - 1], b[..|b| - 1]))
  }

  lemma {:induction false} FilterSpec<T>(s: seq<T>, keep: T -> bool)
    ensures forall x :: x in Filter(s, keep) <==> x in s && keep(x)
    ensures |Filter(s, keep)| <= |s|
    ensures IsSubsequence(Filter(s, keep), s)
  {
    if |s| > 0 {
      var p := s[..|s| - 1];
      var x := s[|s| - 1];
      FilterSpec(p, keep);
      assert s == p + [x];
      var r := Filter(s, keep);
      assert s[..|s| - 1] == p;
      if keep(x) {
        assert r == Filter(p, keep) + [x];
        assert r[..|r| - 1] == Filter(p, keep);
        assert IsSubsequence(r[..|r| - 1], s[..|s| - 1]);
      } else {
        assert r == Filter(p, keep);
        assert |r| > 0 ==> IsSubsequence(r, s[..|s| - 1]);
      }
    }
  }

  /** Filtering one more element keeps it exactly when `keep` holds. */
  lemma FilterSnoc<T>(s: seq<T>, x: T, keep: T -> bool)
    ensures Filter(s + [x], keep) == Filter(s, keep) + (if keep(x) then [x] else [])
  {
    assert (s + [x])[..|s|] == s;
  }

  /** Filtering a concatenation filters each part: the kept elements keep their order. */
  lemma {:induction false} FilterConcat<T>(a: seq<T>, b: seq<T>, keep: T -> bool)
    ensures Filter(a + b, keep) == Filter(a, keep) + Filter(b, keep)
  {
    if |b| > 0 {
      var b' := b[..|b| - 1];
      FilterConcat(a, b', keep);
      assert (a + b)[..|a + b| - 1] == a + b';
    } else {
      assert a + b == a;
    }
  }
  /** The outputs of `f` on each element of `s`, concatenated in order. */
  function ConcatMap<T, U>(s: seq<T>, f: T -> seq<U>): seq<U>
  {
    if |s| == 0 then [] else ConcatMap(s[..|s| - 1], f) + f(s[|s| - 1])
  }

  lemma {:induction false} ConcatMapConcat<T, U>(a: seq<T>, b: seq<T>, f: T -> seq<U>)
    ensures ConcatMap(a + b, f) == ConcatMap(a, f) + ConcatMap(b, f)
  {
    if |b| > 0 {
      var b' := b[..|b| - 1];
      ConcatMapConcat(a, b', f);
      assert (a + b)[..|a + b| - 1] == a + b';
    } else {
      assert a + b == a;
    }
  }
}
