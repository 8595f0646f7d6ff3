/**
 * The objects the host processing framework hands to a rule: the feedback
 * channel (progress and cancellation), output sinks, and a layer the rule
 * edits in place. Edit sessions (`startEditing`/`commitChanges`) are not
 * modelled: every change is visible at once.
 */
module Host {
  import opened Features

  /**
   * Progress reports and the cancellation poll. The user's "cancel" arrives
   * after `cancelAfter` polls have been answered: poll number `cancelAfter`
   * (counting from 0) is the first to see it, and every later poll sees it too.
   */
  class Feedback {
    const cancelAfter: nat
    var polls: nat
    var reports: seq<int>

    constructor (cancelAfter: nat)
      ensures this.cancelAfter == cancelAfter && polls == 0 && reports == []
    {
      this.cancelAfter := cancelAfter;
      polls := 0;
      reports := [];
    }

    /** Some poll has answered "cancelled". */
    ghost predicate Observed()
      reads this
    {
      polls > cancelAfter
    }

    /** `feedback.isCanceled()`. */
    method IsCanceled() returns (c: bool)
      modifies this`polls
      ensures polls == old(polls) + 1
      ensures c <==> Observed()
      ensures old(Observed()) ==> c
    {
      c := polls >= cancelAfter;
      polls := polls + 1;
    }

    /** `feedback.setProgress(p)`. */
    method SetProgress(p: int)
      modifies this`reports
      ensures reports == old(reports) + [p]
    {
      reports := reports + [p];
    }
  }

  /**
   * The progress value `int(count / total * 100)`, with exact arithmetic in
   * place of the floating-point division.
   */
  function Percent(count: nat, total: nat): int
    requires total > 0
  {
    count * 100 / total
  }

  lemma PercentBounds(count: nat, total: nat)
    requires 0 < total && count <= total
    ensures 0 <= Percent(count, total) <= 100
    ensures count == total ==> Percent(count, total) == 100
  {
    var a := count * 100;
    var q := a / total;
    var r := a % total;
    assert a == total * q + r && 0 <= r < total;
    ScaleBy100(count, total);
    if q > 100 {
      ScaleAtLeast(total, q, 101);
      assert false;
    }
    if count == total {
      assert a == total * 100;
      if q < 100 {
        ScaleAtLeast(total, 99, q);
        assert false;
      }
    }
  }

  lemma ScaleBy100(count: nat, total: nat)
    requires count <= total
    ensures count * 100 <= total * 100
  {
  }

  lemma ScaleAtLeast(t: int, x: int, y: int)
    requires t > 0 && x >= y
    ensures t * x >= t * y
  {
  }

  /** An output sink or memory-layer provider: features are only ever appended. */
  class Sink<T> {
    var items: seq<T>

    constructor ()
      ensures items == []
    {
      items := [];
    }

    /** `sink.addFeature(x)`. */
    method AddFeature(x: T)
      modifies this
      ensures items == old(items) + [x]
    {
      items := items + [x];
    }
  }

  /** A layer open for editing: its fields and features change in place. */
  class VectorLayer {
    var fields: seq<string>
    var features: seq<Feature>

    constructor (fields: seq<string>, features: seq<Feature>)
      ensures this.fields == fields && this.features == features
    {
      this.fields := fields;
      this.features := features;
    }

    /** `dataProvider().addAttributes([field])` then `updateFields()`: every feature holds NULL in it. */
    method AddAttribute(name: string)
      modifies this
      ensures fields == old(fields) + [name]
      ensures features == WithNullAttribute(old(features), name)
    {
      fields := fields + [name];
      features := WithNullAttribute(features, name);
    }

    /** `updateFeature(f)` for the feature at position `i`. */
    method UpdateFeature(i: nat, f: Feature)
      requires i < |features|
      modifies this`features
      ensures features == old(features)[i := f]
    {
      features := features[i := f];
    }
  }
}
