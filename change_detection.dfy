/**
 * Change detection between two snapshots of a layer, joined on a primary-key
 * attribute: day-1 features whose compared attributes or geometry changed
 * are "Modificada", day-1 keys missing on day 2 are "Removida", and day-2
 * keys missing on day 1 are "Adicionada". Keys compare as Python values
 * (`Norm`), and geometry equality is an oracle.
 */
module ChangeDetection {
  import opened Features
  import opened Host

  /** An output record: key, change kind, detail text and geometry (the source writes them positionally). */
  datatype Change = Change(key: Value, kind: string, detail: string, geom: Geom)

  // ---------------------------------------------------------------------------
  // Attribute comparison

  function NotIgnored(ignored: set<string>): string -> bool
  {
    (n: string) => n !in ignored
  }

  /** The compared attributes: the day-1 field names that are not ignored, in field order. */
  function ComparedAttributes(fields: seq<string>, ignored: set<string>): seq<string>
  {
    Filter(fields, NotIgnored(ignored))
  }

  lemma ComparedAttributesSpec(fields: seq<string>, ignored: set<string>)
    ensures forall n :: n in ComparedAttributes(fields, ignored) <==> n in fields && n !in ignored
    ensures IsSubsequence(ComparedAttributes(fields, ignored), fields)
  {
    FilterSpec(fields, NotIgnored(ignored));
  }

  /** The attribute differs between the two features (Python `!=`). */
  function Differs(f1: Feature, f2: Feature): string -> bool
  {
    (n: string) => !PyEq(Get(f1, n), Get(f2, n))
  }

  /** The comparison loop: the compared names whose values differ, in list order. */
  method CompareAttributes(f1: Feature, f2: Feature, names: seq<string>) returns (changes: seq<string>)
    ensures changes == Filter(names, Differs(f1, f2))
  {
    changes := [];
    var i := 0;
    while i < |names|
      invariant 0 <= i <= |names|
      invariant changes == Filter(names[..i], Differs(f1, f2))
    {
      var name := names[i];
      assert names[..i + 1] == names[..i] + [name];
      FilterSnoc(names[..i], name, Differs(f1, f2));
      if !PyEq(Get(f1, name), Get(f2, name)) {
        changes := changes + [name];
      }
      i := i + 1;
    }
    assert names[..i] == names;
  }

  /**
   * The changed names are exactly the compared names with different values,
   * in list order; a feature compared with itself has none.
   */
  lemma {:induction false} CompareAttributesSpec(f1: Feature, f2: Feature, names: seq<string>)
    ensures forall n :: n in Filter(names, Differs(f1, f2)) <==> n in names && !PyEq(Get(f1, n), Get(f2, n))
    ensures IsSubsequence(Filter(names, Differs(f1, f2)), names)
    ensures Filter(names, Differs(f1, f1)) == []
  {
    FilterSpec(names, Differs(f1, f2));
    FilterSpec(names, Differs(f1, f1));
    var same := Filter(names, Differs(f1, f1));
    if |same| > 0 {
      assert same[0] in same;
      PyEqIsEquivalence(Get(f1, same[0]), Get(f1, same[0]), Get(f1, same[0]));
    }
  }

  // ---------------------------------------------------------------------------
  // Keys

  /** The key of a feature as a dict or set key. */
  function KeyOf(f: Feature, key: string): Value
  {
    Norm(Get(f, key))
  }

  /** The day-2 features by key; when several share a key, the later one wins. */
  function KeyIndex(day2: seq<Feature>, key: string): (m: map<Value, Feature>)
    ensures forall k :: k in m ==> m[k] in day2 && KeyOf(m[k], key) == k
    ensures forall f :: f in day2 ==> KeyOf(f, key) in m
  {
    if |day2| == 0 then map[]
    else
      var f := day2[|day2| - 1];
      assert day2 == day2[..|day2| - 1] + [f];
      KeyIndex(day2[..|day2| - 1], key)[KeyOf(f, key) := f]
  }

  /** The last day-2 feature with a given key is the one the index keeps. */
  lemma {:induction false} KeyIndexLastWins(day2: seq<Feature>, key: string, i: int)
    requires 0 <= i < |day2|
    requires forall j :: i < j < |day2| ==> KeyOf(day2[j], key) != KeyOf(day2[i], key)
    ensures KeyIndex(day2, key)[KeyOf(day2[i], key)] == day2[i]
  {
    if i < |day2| - 1 {
      KeyIndexLastWins(day2[..|day2| - 1], key, i);
    }
  }

  /** The day-1 keys, as a set. */
  function KeySet(day1: seq<Feature>, key: string): set<Value>
  {
    set f | f in day1 :: KeyOf(f, key)
  }

  /** `sep.join(parts)`. */
  function Join(parts: seq<string>, sep: string): string
  {
    if |parts| == 0 then ""
    else if |parts| == 1 then parts[0]
    else Join(parts[..|parts| - 1], sep) + sep + parts[|parts| - 1]
  }

  lemma JoinEmptyOnlyWhenNothing(parts: seq<string>, sep: string)
    requires forall p :: p in parts ==> |p| > 0
    ensures Join(parts, sep) == "" <==> |parts| == 0
  {
    if |parts| > 1 {
      assert parts[|parts| - 1] in parts;
    } else if |parts| == 1 {
      assert parts[0] in parts;
    }
  }

  // ---------------------------------------------------------------------------
  // The two passes

  /** The changed names of a matched pair: the differing attributes, then "geometria" when the geometries differ. */
  function Differences(f1: Feature, f2: Feature, names: seq<string>, sameGeom: (Geom, Geom) -> bool): seq<string>
  {
    Filter(names, Differs(f1, f2)) + (if sameGeom(f1.geom, f2.geom) then [] else ["geometria"])
  }

  /** What the first pass writes for one day-1 feature. */
  function Pass1Record(f: Feature, index: map<Value, Feature>, names: seq<string>, key: string,
                       sameGeom: (Geom, Geom) -> bool): seq<Change>
  {
    if KeyOf(f, key) in index then
      var diffs := Differences(f, index[KeyOf(f, key)], names, sameGeom);
      if |diffs| > 0 then [Change(Get(f, key), "Modificada", Join(diffs, ", "), f.geom)] else []
    else [Change(Get(f, key), "Removida", "", f.geom)]
  }

  /** The records of the first pass over `day1`, in order. */
  function Pass1(day1: seq<Feature>, index: map<Value, Feature>, names: seq<string>, key: string,
                 sameGeom: (Geom, Geom) -> bool): seq<Change>
  {
    if |day1| == 0 then []
    else Pass1(day1[..|day1| - 1], index, names, key, sameGeom) + Pass1Record(day1[|day1| - 1], index, names, key, sameGeom)
  }

  /** What the second pass writes for one day-2 feature. */
  function Pass2Record(f: Feature, keys1: set<Value>, key: string): seq<Change>
  {
    if KeyOf(f, key) !in keys1 then [Change(Get(f, key), "Adicionada", "", f.geom)] else []
  }

  /** The records of the second pass over `day2`, in order. */
  function Pass2(day2: seq<Feature>, keys1: set<Value>, key: string): seq<Change>
  {
    if |day2| == 0 then [] else Pass2(day2[..|day2| - 1], keys1, key) + Pass2Record(day2[|day2| - 1], keys1, key)
  }

  lemma {:induction false} Pass1Concat(a: seq<Feature>, b: seq<Feature>, index: map<Value, Feature>, names: seq<string>,
                                       key: string, sameGeom: (Geom, Geom) -> bool)
    ensures Pass1(a + b, index, names, key, sameGeom) == Pass1(a, index, names, key, sameGeom) + Pass1(b, index, names, key, sameGeom)
  {
    if |b| == 0 {
      assert a + b == a;
    } else {
      var b' := b[..|b| - 1];
      var ab := (a + b') + [b[|b| - 1]];
      assert a + b == ab;
      assert ab[..|ab| - 1] == a + b';
      Pass1Concat(a, b', index, names, key, sameGeom);
    }
  }

  lemma {:induction false} Pass2Concat(a: seq<Feature>, b: seq<Feature>, keys1: set<Value>, key: string)
    ensures Pass2(a + b, keys1, key) == Pass2(a, keys1, key) + Pass2(b, keys1, key)
  {
    if |b| == 0 {
      assert a + b == a;
    } else {
      var b' := b[..|b| - 1];
      var ab := (a + b') + [b[|b| - 1]];
      assert a + b == ab;
      assert ab[..|ab| - 1] == a + b';
      Pass2Concat(a, b', keys1, key);
    }
  }

  /** Every first-pass record is a modification or a removal of some day-1 feature, with that feature's key and geometry. */
  lemma {:induction false} Pass1Members(day1: seq<Feature>, index: map<Value, Feature>, names: seq<string>, key: string,
                                        sameGeom: (Geom, Geom) -> bool, c: Change)
    requires c in Pass1(day1, index, names, key, sameGeom)
    ensures c.kind == "Modificada" || c.kind == "Removida"
    ensures exists f :: (f in day1 && c.key == Get(f, key) && c.geom == f.geom
      && (c.kind == "Removida" ==> KeyOf(f, key) !in index)
      && (c.kind == "Modificada" ==> KeyOf(f, key) in index))
  {
    var init := day1[..|day1| - 1];
    var f := day1[|day1| - 1];
    if c in Pass1(init, index, names, key, sameGeom) {
      Pass1Members(init, index, names, key, sameGeom, c);
      var g :| g in init && c.key == Get(g, key) && c.geom == g.geom
        && (c.kind == "Removida" ==> KeyOf(g, key) !in index)
        && (c.kind == "Modificada" ==> KeyOf(g, key) in index);
      assert g in day1;
    } else {
      assert c in Pass1Record(f, index, names, key, sameGeom);
    }
  }

  /** A second-pass record is written for a day-2 feature exactly when its key is not a day-1 key. */
  lemma {:induction false} Pass2Members(day2: seq<Feature>, keys1: set<Value>, key: string, c: Change)
    ensures c in Pass2(day2, keys1, key) <==>
      exists f :: f in day2 && KeyOf(f, key) !in keys1 && c == Change(Get(f, key), "Adicionada", "", f.geom)
  {
    if |day2| > 0 {
      var init := day2[..|day2| - 1];
      var f := day2[|day2| - 1];
      assert day2 == init + [f];
      Pass2Members(init, keys1, key, c);
    }
  }

  /** Every day-1 key missing on day 2 gets its removal record. */
  lemma {:induction false} RemovedKeysReported(day1: seq<Feature>, index: map<Value, Feature>, names: seq<string>,
                                               key: string, sameGeom: (Geom, Geom) -> bool, f: Feature)
    requires f in day1 && KeyOf(f, key) !in index
    ensures Change(Get(f, key), "Removida", "", f.geom) in Pass1(day1, index, names, key, sameGeom)
  {
    var init := day1[..|day1| - 1];
    assert day1 == init + [day1[|day1| - 1]];
    if f != day1[|day1| - 1] {
      RemovedKeysReported(init, index, names, key, sameGeom, f);
    }
  }

  /**
   * A matched day-1 feature gets one "Modificada" record when some compared
   * attribute or the geometry differs, and none when nothing differs.
   */
  lemma ModifiedIff(f: Feature, index: map<Value, Feature>, names: seq<string>, key: string,
                    sameGeom: (Geom, Geom) -> bool)
    requires KeyOf(f, key) in index
    ensures var g := index[KeyOf(f, key)];
      (exists n :: n in names && !PyEq(Get(f, n), Get(g, n))) || !sameGeom(f.geom, g.geom)
      <==> |Pass1Record(f, index, names, key, sameGeom)| == 1 && Pass1Record(f, index, names, key, sameGeom)[0].kind == "Modificada"
    ensures var g := index[KeyOf(f, key)];
      (forall n :: n in names ==> PyEq(Get(f, n), Get(g, n))) && sameGeom(f.geom, g.geom)
      <==> Pass1Record(f, index, names, key, sameGeom) == []
  {
    var g := index[KeyOf(f, key)];
    FilterSpec(names, Differs(f, g));
    var d := Filter(names, Differs(f, g));
    if |d| > 0 {
      assert d[0] in d;
    }
  }

  /** No key is both removed and added: a removed key is absent from day 2, an added key from day 1. */
  lemma RemovedAndAddedDisjoint(day1: seq<Feature>, day2: seq<Feature>, names: seq<string>, key: string,
                                sameGeom: (Geom, Geom) -> bool, r: Change, a: Change)
    requires r in Pass1(day1, KeyIndex(day2, key), names, key, sameGeom) && r.kind == "Removida"
    requires a in Pass2(day2, KeySet(day1, key), key)
    ensures Norm(r.key) != Norm(a.key)
  {
    Pass1Members(day1, KeyIndex(day2, key), names, key, sameGeom, r);
    Pass2Members(day2, KeySet(day1, key), key, a);
    var f2 :| f2 in day2 && KeyOf(f2, key) !in KeySet(day1, key) && a == Change(Get(f2, key), "Adicionada", "", f2.geom);
    var f1 :| f1 in day1 && r.key == Get(f1, key) && r.geom == f1.geom && KeyOf(f1, key) !in KeyIndex(day2, key);
    assert KeyOf(f1, key) in KeySet(day1, key);
  }

  /** One step of the first pass: the record written for day-1 feature `f`. */
  method Compare(f: Feature, index: map<Value, Feature>, names: seq<string>, key: string,
                 sameGeom: (Geom, Geom) -> bool, sink: Sink<Change>)
    modifies sink
    ensures sink.items == old(sink.items) + Pass1Record(f, index, names, key, sameGeom)
  {
    var k := Get(f, key);
    if Norm(k) in index {
      var next := index[Norm(k)];
      var diffs := CompareAttributes(f, next, names);
      if !sameGeom(f.geom, next.geom) {
        diffs := diffs + ["geometria"];
      }
      assert diffs == Differences(f, next, names, sameGeom);
      if |diffs| > 0 {
        sink.AddFeature(Change(k, "Modificada", Join(diffs, ", "), f.geom));
      }
    } else {
      sink.AddFeature(Change(k, "Removida", "", f.geom));
    }
  }

  /** The first pass, polling for cancellation before each feature. */
  method FirstPass(day1: seq<Feature>, index: map<Value, Feature>, names: seq<string>, key: string,
                   sameGeom: (Geom, Geom) -> bool, sink: Sink<Change>, feedback: Feedback)
    returns (ghost done: nat)
    modifies sink, feedback`polls
    ensures done <= |day1|
    ensures feedback.polls >= old(feedback.polls)
    ensures done < |day1| ==> feedback.Observed()
    ensures sink.items == old(sink.items) + Pass1(day1[..done], index, names, key, sameGeom)
  {
    var i := 0;
    while i < |day1|
      invariant 0 <= i <= |day1|
      invariant feedback.polls >= old(feedback.polls)
      invariant sink.items == old(sink.items) + Pass1(day1[..i], index, names, key, sameGeom)
    {
      var cancel := feedback.IsCanceled();
      if cancel {
        break;
      }
      assert day1[..i + 1][..i] == day1[..i];
      Compare(day1[i], index, names, key, sameGeom, sink);
      i := i + 1;
    }
    done := i;
  }

  /** The second pass, polling for cancellation before each feature. */
  method SecondPass(day2: seq<Feature>, keys1: set<Value>, key: string, sink: Sink<Change>, feedback: Feedback)
    returns (ghost done: nat)
    modifies sink, feedback`polls
    ensures done <= |day2|
    ensures feedback.polls >= old(feedback.polls)
    ensures done < |day2| ==> feedback.Observed()
    ensures old(feedback.Observed()) ==> done == 0
    ensures sink.items == old(sink.items) + Pass2(day2[..done], keys1, key)
  {
    ghost var cancelledBefore := feedback.Observed();
    var j := 0;
    while j < |day2|
      invariant 0 <= j <= |day2|
      invariant feedback.polls >= old(feedback.polls)
      invariant cancelledBefore ==> j == 0 && feedback.Observed()
      invariant sink.items == old(sink.items) + Pass2(day2[..j], keys1, key)
    {
      var cancel := feedback.IsCanceled();
      if cancel {
        break;
      }
      var f := day2[j];
      assert day2[..j + 1][..j] == day2[..j];
      var k := Get(f, key);
      if Norm(k) !in keys1 {
        sink.AddFeature(Change(k, "Adicionada", "", f.geom));
      }
      j := j + 1;
    }
    done := j;
  }

  /**
   * The two cancellable passes. Pass 1 stops at the first poll that sees
   * cancellation, and pass 2 then stops at once; the records written are the
   * records of the processed prefixes of both layers.
   */
  method IdentifyChanges(day1: seq<Feature>, day2: seq<Feature>, sink: Sink<Change>, names: seq<string>,
                         key: string, sameGeom: (Geom, Geom) -> bool, feedback: Feedback)
    returns (ghost done1: nat, ghost done2: nat)
    modifies sink, feedback`polls
    ensures done1 <= |day1| && done2 <= |day2|
    ensures done1 < |day1| ==> done2 == 0 && feedback.Observed()
    ensures done2 < |day2| ==> feedback.Observed()
    ensures sink.items == old(sink.items)
      + Pass1(day1[..done1], KeyIndex(day2, key), names, key, sameGeom)
      + Pass2(day2[..done2], KeySet(day1, key), key)
  {
    var index := KeyIndex(day2, key);
    done1 := FirstPass(day1, index, names, key, sameGeom, sink, feedback);
    var keys1 := KeySet(day1, key);
    done2 := SecondPass(day2, keys1, key, sink, feedback);
  }

  /**
   * A cancelled run writes a prefix of what the uncancelled run writes, for
   * any key index and day-1 key set.
   */
  lemma CancelledRunIsPrefix(day1: seq<Feature>, day2: seq<Feature>, index: map<Value, Feature>, keys1: set<Value>,
                             names: seq<string>, key: string, sameGeom: (Geom, Geom) -> bool, done1: nat, done2: nat)
    requires done1 <= |day1| && done2 <= |day2|
    requires done1 < |day1| ==> done2 == 0
    ensures var part := Pass1(day1[..done1], index, names, key, sameGeom) + Pass2(day2[..done2], keys1, key);
            var full := Pass1(day1, index, names, key, sameGeom) + Pass2(day2, keys1, key);
            |part| <= |full| && full[..|part|] == part
  {
    var p1 := Pass1(day1[..done1], index, names, key, sameGeom);
    var r1 := Pass1(day1[done1..], index, names, key, sameGeom);
    var p2 := Pass2(day2[..done2], keys1, key);
    var r2 := Pass2(day2[done2..], keys1, key);
    assert day1 == day1[..done1] + day1[done1..];
    assert day2 == day2[..done2] + day2[done2..];
    Pass1Concat(day1[..done1], day1[done1..], index, names, key, sameGeom);
    Pass2Concat(day2[..done2], day2[done2..], keys1, key);
    PrefixOfParts(p1, r1, p2, r2, done1 < |day1|);
  }

  lemma PrefixOfParts<T>(p1: seq<T>, r1: seq<T>, p2: seq<T>, r2: seq<T>, cut: bool)
    requires cut ==> p2 == []
    requires !cut ==> r1 == []
    ensures |p1 + p2| <= |(p1 + r1) + (p2 + r2)| && ((p1 + r1) + (p2 + r2))[..|p1 + p2|] == p1 + p2
  {
    var full := (p1 + r1) + (p2 + r2);
    if cut {
      assert p1 + p2 == p1;
      assert full == p1 + (r1 + r2);
    } else {
      assert full == (p1 + p2) + r2;
    }
  }

  /**
   * The change-detection algorithm: the compared attributes are the day-1
   * fields minus the ignored ones, then the two passes run.
   */
  method DetectChanges(fields1: seq<string>, ignored: set<string>, day1: seq<Feature>, day2: seq<Feature>,
                       key: string, sameGeom: (Geom, Geom) -> bool, sink: Sink<Change>, feedback: Feedback)
    returns (ghost done1: nat, ghost done2: nat)
    modifies sink, feedback`polls
    ensures done1 <= |day1| && done2 <= |day2|
    ensures done1 < |day1| ==> done2 == 0 && feedback.Observed()
    ensures done2 < |day2| ==> feedback.Observed()
    ensures sink.items == old(sink.items)
      + Pass1(day1[..done1], KeyIndex(day2, key), ComparedAttributes(fields1, ignored), key, sameGeom)
      + Pass2(day2[..done2], KeySet(day1, key), key)
  {
    var names := Filter(fields1, NotIgnored(ignored));
    done1, done2 := IdentifyChanges(day1, day2, sink, names, key, sameGeom, feedback);
  }
}
