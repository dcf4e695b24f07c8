/** The weight labels of a GSLB host record (`getLabels` in
    controllers/dnsupdate.go): one label `weight-<tag>-<index>-<weight>` per IP
    of every weighted geo tag, mapped to that IP. */
module Labels {
  import opened Strings
  import opened Targets

  /** The label key `fmt.Sprintf("weight-%s-%v-%v", tag, index, weight)`. */
  function WeightLabel(tag: string, index: nat, weight: int): string {
    "weight-" + tag + "-" + NatToString(index) + "-" + IntToString(weight)
  }

  function Abs(w: int): nat {
    if w < 0 then -w else w
  }

  /** Everything in a weight label before the digits of the weight's magnitude. */
  function LabelHead(tag: string, index: nat, weight: int): string {
    "weight-" + tag + "-" + NatToString(index) + (if weight < 0 then "--" else "-")
  }

  /** A weight label is its head followed by the digits of `|weight|`; the head ends in a dash,
      and its second last character is a dash exactly when the weight is negative. */
  lemma LabelShape(tag: string, index: nat, weight: int)
    ensures WeightLabel(tag, index, weight) == LabelHead(tag, index, weight) + NatToString(Abs(weight))
    ensures var h := LabelHead(tag, index, weight);
      |h| >= 2 && h[|h| - 1] == '-' && (h[|h| - 2] == '-' <==> weight < 0)
  {
    var n := NatToString(index);
    NatToStringRoundTrip(index);
    var x := "weight-" + tag + "-" + n;
    assert x[|x| - 1] == n[|n| - 1];
    assert IsDigit(x[|x| - 1]);
    if weight < 0 {
      assert WeightLabel(tag, index, weight) == x + "-" + ("-" + NatToString(-weight));
    }
  }

  /** Different (tag, index, weight) triples never share a label key. */
  lemma WeightLabelInjective(t1: string, i1: nat, w1: int, t2: string, i2: nat, w2: int)
    requires WeightLabel(t1, i1, w1) == WeightLabel(t2, i2, w2)
    ensures t1 == t2 && i1 == i2 && w1 == w2
  {
    LabelShape(t1, i1, w1);
    LabelShape(t2, i2, w2);
    var h1, h2 := LabelHead(t1, i1, w1), LabelHead(t2, i2, w2);
    SplitTrailingNat(h1, Abs(w1), h2, Abs(w2));
    assert (w1 < 0) == (w2 < 0);
    var p1, p2 := "weight-" + t1 + "-", "weight-" + t2 + "-";
    assert p1 + NatToString(i1) == h1[..|h1| - (if w1 < 0 then 2 else 1)];
    assert p2 + NatToString(i2) == h2[..|h2| - (if w2 < 0 then 2 else 1)];
    SplitTrailingNat(p1, i1, p2, i2);
    assert t1 == p1[7..|p1| - 1];
    assert t2 == p2[7..|p2| - 1];
  }

  lemma WeightLabelsInjective()
    ensures forall t1, i1, w1, t2, i2, w2 :: WeightLabel(t1, i1, w1) == WeightLabel(t2, i2, w2) ==>
      t1 == t2 && i1 == i2 && w1 == w2
  {
    forall t1, i1, w1, t2, i2, w2 | WeightLabel(t1, i1, w1) == WeightLabel(t2, i2, w2)
      ensures t1 == t2 && i1 == i2 && w1 == w2
    {
      WeightLabelInjective(t1, i1, w1, t2, i2, w2);
    }
  }

  /** The reserved label `strategy` is never a weight label. */
  lemma StrategyIsNotWeightLabel(tag: string, index: nat, weight: int)
    ensures WeightLabel(tag, index, weight) != "strategy"
  {
    assert WeightLabel(tag, index, weight)[0] == 'w';
  }

  /** The (tag, index) pairs of the tags in `tags`, one per IP listed under the tag. */
  function SlotsOf(tags: set<string>, ts: Targets): set<(string, nat)> {
    set t, i: nat | t in tags && i < |Lookup(ts, t)| :: (t, i)
  }

  /** The (tag, index) pairs that receive a weight label. */
  function WeightSlots(weight: map<string, int>, ts: Targets): set<(string, nat)> {
    SlotsOf(weight.Keys, ts)
  }

  /** The label map `getLabels` returns, as a map comprehension. */
  function WeightLabels(weight: map<string, int>, ts: Targets): map<string, string> {
    WeightLabelsInjective();
    map p | p in WeightSlots(weight, ts) :: WeightLabel(p.0, p.1, weight[p.0]) := Lookup(ts, p.0)[p.1]
  }

  /** Each IP of a weighted tag present in the targets gets its own label. */
  lemma {:induction false} WeightLabelsInclude(weight: map<string, int>, ts: Targets, tag: string, i: nat)
    requires tag in weight && i < |Lookup(ts, tag)|
    ensures tag in Tags(ts)
    ensures WeightLabel(tag, i, weight[tag]) in WeightLabels(weight, ts)
    ensures WeightLabels(weight, ts)[WeightLabel(tag, i, weight[tag])] == Lookup(ts, tag)[i]
  {
    if tag !in Tags(ts) {
      AbsentTagHasNoIPs(ts, tag);
    }
    WeightLabelsInjective();
    assert (tag, i) in WeightSlots(weight, ts);
  }

  /** Every label comes from a weighted tag present in the targets, and its value is one of that tag's IPs. */
  lemma WeightLabelsOnly(weight: map<string, int>, ts: Targets, key: string)
    requires key in WeightLabels(weight, ts)
    ensures exists tag, i: nat :: (tag in weight && tag in Tags(ts) && i < |Lookup(ts, tag)| &&
      key == WeightLabel(tag, i, weight[tag]) && WeightLabels(weight, ts)[key] == Lookup(ts, tag)[i])
  {
    var slots := WeightSlots(weight, ts);
    assert forall p :: p in slots ==> p.0 in weight && p.1 < |Lookup(ts, p.0)|;
    var p :| p in slots && p.0 in weight && key == WeightLabel(p.0, p.1, weight[p.0]);
    WeightLabelsInclude(weight, ts, p.0, p.1);
  }

  /** No weight label overrides the `strategy` label it is merged next to. */
  lemma WeightLabelsAvoidStrategy(weight: map<string, int>, ts: Targets)
    ensures "strategy" !in WeightLabels(weight, ts)
  {
    forall key | key in WeightLabels(weight, ts) ensures key != "strategy" {
      WeightLabelsOnly(weight, ts, key);
      var tag, i: nat :| tag in weight && key == WeightLabel(tag, i, weight[tag]);
      StrategyIsNotWeightLabel(tag, i, weight[tag]);
    }
  }

  /** The label map depends only on what is stored under each tag, not on the order in which
      the tags were inserted. */
  lemma WeightLabelsDependOnLookupOnly(weight: map<string, int>, ts1: Targets, ts2: Targets)
    requires forall tag :: Lookup(ts1, tag) == Lookup(ts2, tag)
    ensures WeightLabels(weight, ts1) == WeightLabels(weight, ts2)
  {
    assert WeightSlots(weight, ts1) == WeightSlots(weight, ts2);
  }

  /** Weights {eu: 10, us: 5} over targets {eu: [1.1.1.1, 1.1.1.2], us: [2.2.2.2]} give exactly
      weight-eu-0-10, weight-eu-1-10 and weight-us-0-5, each mapped to its IP. */
  lemma WeightLabelsExample()
    ensures WeightLabels(map["eu" := 10, "us" := 5],
                         [Target("eu", ["1.1.1.1", "1.1.1.2"]), Target("us", ["2.2.2.2"])]) ==
      map["weight-eu-0-10" := "1.1.1.1", "weight-eu-1-10" := "1.1.1.2", "weight-us-0-5" := "2.2.2.2"]
  {
    var weight := map["eu" := 10, "us" := 5];
    var ts := [Target("eu", ["1.1.1.1", "1.1.1.2"]), Target("us", ["2.2.2.2"])];
    var expected := map["weight-eu-0-10" := "1.1.1.1", "weight-eu-1-10" := "1.1.1.2", "weight-us-0-5" := "2.2.2.2"];
    var wl := WeightLabels(weight, ts);
    assert NatToString(10) == NatToString(1) + [DigitChar(0)] == "10";
    assert WeightLabel("eu", 0, 10) == "weight-eu-0-10";
    assert WeightLabel("eu", 1, 10) == "weight-eu-1-10";
    assert WeightLabel("us", 0, 5) == "weight-us-0-5";
    assert Lookup(ts, "eu") == ["1.1.1.1", "1.1.1.2"];
    assert Lookup(ts, "us") == ["2.2.2.2"];
    WeightLabelsInclude(weight, ts, "eu", 0);
    WeightLabelsInclude(weight, ts, "eu", 1);
    WeightLabelsInclude(weight, ts, "us", 0);
    forall key | key in wl ensures key in expected {
      WeightLabelsOnly(weight, ts, key);
      var tag, i: nat :| tag in weight && tag in Tags(ts) && i < |Lookup(ts, tag)| &&
        key == WeightLabel(tag, i, weight[tag]);
      assert tag == "eu" || tag == "us";
    }
    assert wl.Keys == expected.Keys;
  }

  /** `labels` holds the weight label of every slot in `slots`, mapped to the slot's IP. */
  ghost predicate Covered(labels: map<string, string>, weight: map<string, int>, ts: Targets, slots: set<(string, nat)>) {
    forall p :: p in slots ==>
      p.0 in weight && p.1 < |Lookup(ts, p.0)| &&
      WeightLabel(p.0, p.1, weight[p.0]) in labels &&
      labels[WeightLabel(p.0, p.1, weight[p.0])] == Lookup(ts, p.0)[p.1]
  }

  /** Every label in `labels` is the weight label of some slot in `slots`, mapped to its IP. */
  ghost predicate Sourced(labels: map<string, string>, weight: map<string, int>, ts: Targets, slots: set<(string, nat)>) {
    forall key :: key in labels ==>
      exists p :: p in slots && p.0 in weight && p.1 < |Lookup(ts, p.0)| &&
        key == WeightLabel(p.0, p.1, weight[p.0]) && labels[key] == Lookup(ts, p.0)[p.1]
  }

  /** `labels` holds exactly one weight label for each slot in `slots`, and nothing else. */
  ghost predicate Filled(labels: map<string, string>, weight: map<string, int>, ts: Targets, slots: set<(string, nat)>) {
    Covered(labels, weight, ts, slots) && Sourced(labels, weight, ts, slots)
  }

  /** Writing the label of a new slot keeps every earlier label: keys never collide. */
  lemma FillSlotCovers(labels: map<string, string>, weight: map<string, int>, ts: Targets,
                       slots: set<(string, nat)>, p: (string, nat))
    requires Covered(labels, weight, ts, slots)
    requires p !in slots && p.0 in weight && p.1 < |Lookup(ts, p.0)|
    ensures Covered(labels[WeightLabel(p.0, p.1, weight[p.0]) := Lookup(ts, p.0)[p.1]], weight, ts, slots + {p})
  {
    var key := WeightLabel(p.0, p.1, weight[p.0]);
    forall q | q in slots
      ensures WeightLabel(q.0, q.1, weight[q.0]) != key
    {
      if WeightLabel(q.0, q.1, weight[q.0]) == key {
        WeightLabelInjective(q.0, q.1, weight[q.0], p.0, p.1, weight[p.0]);
      }
    }
  }

  /** Writing the label of a new slot adds only that slot's label. */
  lemma FillSlotSources(labels: map<string, string>, weight: map<string, int>, ts: Targets,
                        slots: set<(string, nat)>, p: (string, nat))
    requires Sourced(labels, weight, ts, slots)
    requires p.0 in weight && p.1 < |Lookup(ts, p.0)|
    ensures Sourced(labels[WeightLabel(p.0, p.1, weight[p.0]) := Lookup(ts, p.0)[p.1]], weight, ts, slots + {p})
  {
    var key := WeightLabel(p.0, p.1, weight[p.0]);
    var next := labels[key := Lookup(ts, p.0)[p.1]];
    forall k | k in next
      ensures exists q :: (q in slots + {p} && q.0 in weight && q.1 < |Lookup(ts, q.0)| &&
        k == WeightLabel(q.0, q.1, weight[q.0]) && next[k] == Lookup(ts, q.0)[q.1])
    {
      if k == key {
        assert p in slots + {p};
      } else {
        var q :| q in slots && q.0 in weight && q.1 < |Lookup(ts, q.0)| &&
          k == WeightLabel(q.0, q.1, weight[q.0]) && labels[k] == Lookup(ts, q.0)[q.1];
        assert q in slots + {p};
      }
    }
  }

  lemma FillSlot(labels: map<string, string>, weight: map<string, int>, ts: Targets,
                 slots: set<(string, nat)>, p: (string, nat))
    requires Filled(labels, weight, ts, slots)
    requires p !in slots && p.0 in weight && p.1 < |Lookup(ts, p.0)|
    ensures Filled(labels[WeightLabel(p.0, p.1, weight[p.0]) := Lookup(ts, p.0)[p.1]], weight, ts, slots + {p})
  {
    FillSlotCovers(labels, weight, ts, slots, p);
    FillSlotSources(labels, weight, ts, slots, p);
  }

  /** The slots of one tag: one per IP listed under it. */
  function TagSlots(ts: Targets, tag: string): set<(string, nat)> {
    set i: nat | i < |Lookup(ts, tag)| :: (tag, i)
  }

  lemma SlotsOfAdd(tags: set<string>, ts: Targets, tag: string)
    ensures SlotsOf(tags + {tag}, ts) == SlotsOf(tags, ts) + TagSlots(ts, tag)
  {
  }

  /** Every label filled for a weight slot is one `getLabels` promises, with the same IP. */
  lemma FilledWithin(labels: map<string, string>, weight: map<string, int>, ts: Targets)
    requires Filled(labels, weight, ts, WeightSlots(weight, ts))
    ensures forall key :: key in labels ==> key in WeightLabels(weight, ts) && WeightLabels(weight, ts)[key] == labels[key]
  {
    forall key | key in labels ensures key in WeightLabels(weight, ts) && WeightLabels(weight, ts)[key] == labels[key] {
      var p :| p in WeightSlots(weight, ts) && p.0 in weight && p.1 < |Lookup(ts, p.0)| &&
        key == WeightLabel(p.0, p.1, weight[p.0]) && labels[key] == Lookup(ts, p.0)[p.1];
      WeightLabelsInclude(weight, ts, p.0, p.1);
    }
  }

  /** Every label `getLabels` promises is among those filled for the weight slots. */
  lemma FilledCovers(labels: map<string, string>, weight: map<string, int>, ts: Targets)
    requires Filled(labels, weight, ts, WeightSlots(weight, ts))
    ensures forall key :: key in WeightLabels(weight, ts) ==> key in labels
  {
    forall key | key in WeightLabels(weight, ts) ensures key in labels {
      WeightLabelsOnly(weight, ts, key);
      var tag, i: nat :| tag in weight && tag in Tags(ts) && i < |Lookup(ts, tag)| &&
        key == WeightLabel(tag, i, weight[tag]);
      assert (tag, i) in WeightSlots(weight, ts);
    }
  }

  /** Labels that fill every weight slot are the labels `getLabels` promises. */
  lemma FilledIsWeightLabels(labels: map<string, string>, weight: map<string, int>, ts: Targets)
    requires Filled(labels, weight, ts, WeightSlots(weight, ts))
    ensures labels == WeightLabels(weight, ts)
  {
    var wl := WeightLabels(weight, ts);
    FilledWithin(labels, weight, ts);
    FilledCovers(labels, weight, ts);
    assert labels.Keys == wl.Keys;
  }

  /** The indices of `tag` below `n`, as slots. */
  function SlotsBelow(tag: string, n: nat): set<(string, nat)> {
    set j: nat | j < n :: (tag, j)
  }

  lemma SlotsBelowNext(tag: string, n: nat)
    ensures SlotsBelow(tag, n + 1) == SlotsBelow(tag, n) + {(tag, n)}
    ensures (tag, n) !in SlotsBelow(tag, n)
  {
  }

  /** The inner loop of `getLabels`: labels the IPs of one weighted tag, index by index. */
  method LabelTag(labels: map<string, string>, weight: map<string, int>, ts: Targets,
                  ghost slots: set<(string, nat)>, tag: string)
    returns (out: map<string, string>)
    requires tag in weight && Filled(labels, weight, ts, slots)
    requires forall p :: p in slots ==> p.0 != tag
    ensures Filled(out, weight, ts, slots + TagSlots(ts, tag))
  {
    out := labels;
    var ips := Lookup(ts, tag);
    var i := 0;
    while i < |ips|
      invariant 0 <= i <= |ips|
      invariant Filled(out, weight, ts, slots + SlotsBelow(tag, i))
    {
      SlotsBelowNext(tag, i);
      FillSlot(out, weight, ts, slots + SlotsBelow(tag, i), (tag, i));
      assert slots + SlotsBelow(tag, i) + {(tag, i)} == slots + SlotsBelow(tag, i + 1);
      out := out[WeightLabel(tag, i, weight[tag]) := ips[i]];
      i := i + 1;
    }
    assert SlotsBelow(tag, |ips|) == TagSlots(ts, tag);
  }

  /** `getLabels`: walks the weight map in no particular order; for each weighted tag the
      targets hold, labels every IP of the tag by its index. */
  method GetLabels(weight: map<string, int>, ts: Targets) returns (labels: map<string, string>)
    ensures labels == WeightLabels(weight, ts)
  {
    labels := map[];
    var todo := weight.Keys;
    ghost var slots: set<(string, nat)> := {};
    while todo != {}
      invariant todo <= weight.Keys
      invariant slots == SlotsOf(weight.Keys - todo, ts)
      invariant Filled(labels, weight, ts, slots)
      decreases todo
    {
      var k :| k in todo;
      SlotsOfAdd(weight.Keys - todo, ts, k);
      assert weight.Keys - (todo - {k}) == (weight.Keys - todo) + {k};
      todo := todo - {k};
      if k !in Tags(ts) {
        AbsentTagHasNoIPs(ts, k);
        assert TagSlots(ts, k) == {};
        slots := slots + TagSlots(ts, k);
        continue;
      }
      labels := LabelTag(labels, weight, ts, slots, k);
      slots := slots + TagSlots(ts, k);
    }
    FilledIsWeightLabels(labels, weight, ts);
  }
}
