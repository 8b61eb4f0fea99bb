/**
  The summary component: records are grouped by compound code in one
  left-to-right pass over a dictionary of arrays, each group becomes a
  compound summary, and three statistics and the view to show are derived.
 */
module DataSummary {
  import opened Seqs
  import opened JsValues
  import opened JsObjects
  import opened RowNormalizer

  datatype CompoundSummary = CompoundSummary(
    compoundCode: string,
    caseStudies: seq<CaseStudy>,
    totalStudies: nat)

  /** The dictionary key a record is filed under: its compound code as a property key. */
  function CodeOf(r: CaseStudy): string {
    PropertyKey(r.primaryCompoundCode)
  }

  /** Some record of `data` is filed under `k`. */
  ghost predicate Occurs(data: seq<CaseStudy>, k: string) {
    exists i :: 0 <= i < |data| && CodeOf(data[i]) == k
  }

  /** The grouping cannot touch an inherited property of `{}` (which would throw). */
  predicate NoPrototypeCodes(data: seq<CaseStudy>) {
    forall i :: 0 <= i < |data| ==> CodeOf(data[i]) !in ObjectPrototypeKeys
  }

  /** Occurrence in a sequence extended by one record. */
  lemma OccursSnoc(data: seq<CaseStudy>, k: string)
    requires data != []
    ensures Occurs(data, k) <==> Occurs(data[..|data| - 1], k) || CodeOf(data[|data| - 1]) == k
  {
    var init := data[..|data| - 1];
    if Occurs(data, k) && CodeOf(data[|data| - 1]) != k {
      var i :| 0 <= i < |data| && CodeOf(data[i]) == k;
      assert init[i] == data[i];
    }
    if Occurs(init, k) {
      var i :| 0 <= i < |init| && CodeOf(init[i]) == k;
      assert data[i] == init[i];
    }
  }

  /** The distinct codes of `data` in the order they are first met, left to right. */
  function FirstAppearance(data: seq<CaseStudy>): (codes: seq<string>)
    ensures Distinct(codes)
    ensures forall k :: k in codes <==> Occurs(data, k)
  {
    if data == [] then []
    else
      var prev := FirstAppearance(data[..|data| - 1]);
      var code := CodeOf(data[|data| - 1]);
      OccursSnoc(data, code);
      assert forall k :: Occurs(data, k) <==> Occurs(data[..|data| - 1], k) || code == k by {
        forall k ensures Occurs(data, k) <==> Occurs(data[..|data| - 1], k) || code == k {
          OccursSnoc(data, k);
        }
      }
      if code in prev then prev else prev + [code]
  }

  /** Extending the input by one record adds its code at the end if it is new. */
  lemma FirstAppearanceSnoc(prefix: seq<CaseStudy>, r: CaseStudy)
    ensures FirstAppearance(prefix + [r]) ==
      if CodeOf(r) in FirstAppearance(prefix) then FirstAppearance(prefix)
      else FirstAppearance(prefix) + [CodeOf(r)]
  {
    assert (prefix + [r])[..|prefix|] == prefix;
  }

  /** The test "filed under `k`". */
  function CodeIs(k: string): CaseStudy -> bool {
    r => CodeOf(r) == k
  }

  /** The records filed under `k`, in input order: the reference definition of a bucket. */
  function Bucket(data: seq<CaseStudy>, k: string): seq<CaseStudy> {
    Filter(data, CodeIs(k))
  }

  /** The summary the projection makes of the bucket for `k`. */
  function SummaryOf(data: seq<CaseStudy>, k: string): CompoundSummary {
    var b := Bucket(data, k);
    CompoundSummary(k, b, |b|)
  }

  /** One summary per key, in the order given. */
  function SummariesFor(keys: seq<string>, data: seq<CaseStudy>): (s: seq<CompoundSummary>)
    ensures |s| == |keys| && forall i :: 0 <= i < |keys| ==> s[i] == SummaryOf(data, keys[i])
  {
    seq(|keys|, i requires 0 <= i < |keys| => SummaryOf(data, keys[i]))
  }

  /** The compound summaries: one per code, in the order `Object.entries` lists the dictionary's keys. */
  function Summaries(data: seq<CaseStudy>): (s: seq<CompoundSummary>)
    ensures |s| == |FirstAppearance(data)|
    ensures forall i :: 0 <= i < |s| ==> s[i].totalStudies == |s[i].caseStudies|
  {
    var keys := OwnKeysOrder(FirstAppearance(data));
    assert |keys| == |multiset(keys)| == |multiset(FirstAppearance(data))|;
    SummariesFor(OwnKeysOrder(FirstAppearance(data)), data)
  }

  /**
    The state of the `reduce` after the records of `prefix`: `groups` holds
    one bucket per code met so far, and `order` the order those keys were
    created in.
   */
  ghost predicate Grouped(groups: map<string, seq<CaseStudy>>, order: seq<string>, prefix: seq<CaseStudy>) {
    && order == FirstAppearance(prefix)
    && (forall k :: k in groups <==> k in order)
    && (forall k :: k in groups ==> groups[k] == Bucket(prefix, k))
  }

  /** Extending the input by one record extends only that record's bucket, at its end. */
  lemma BucketSnoc(prefix: seq<CaseStudy>, study: CaseStudy, k: string)
    ensures Bucket(prefix + [study], k) == Bucket(prefix, k) + (if CodeOf(study) == k then [study] else [])
  {
    FilterAppend(prefix, [study], CodeIs(k));
    assert [study][1..] == [];
  }

  /** One step of the `reduce`: create the bucket if the code is new, then append the record. */
  lemma GroupStep(groups: map<string, seq<CaseStudy>>, order: seq<string>, prefix: seq<CaseStudy>,
                  study: CaseStudy, groups': map<string, seq<CaseStudy>>, order': seq<string>)
    requires Grouped(groups, order, prefix)
    requires CodeOf(study) in groups ==>
      order' == order && groups' == groups[CodeOf(study) := groups[CodeOf(study)] + [study]]
    requires CodeOf(study) !in groups ==>
      order' == order + [CodeOf(study)] && groups' == groups[CodeOf(study) := [study]]
    ensures Grouped(groups', order', prefix + [study])
  {
    var code := CodeOf(study);
    var data := prefix + [study];
    assert data[..|data| - 1] == prefix;
    if code !in groups {
      FilterNone(prefix, CodeIs(code));
    }
    forall k | k in groups'
      ensures groups'[k] == Bucket(data, k)
    {
      BucketSnoc(prefix, study, k);
    }
  }

  /** `Object.entries(groups).map(...)`: one summary per key, in the order given. */
  function Project(groups: map<string, seq<CaseStudy>>, keys: seq<string>): (s: seq<CompoundSummary>)
    requires forall j :: 0 <= j < |keys| ==> keys[j] in groups
    ensures |s| == |keys|
    ensures forall j :: 0 <= j < |keys| ==>
      s[j].compoundCode == keys[j] && s[j].caseStudies == groups[keys[j]] && s[j].totalStudies == |s[j].caseStudies|
  {
    seq(|keys|, j requires 0 <= j < |keys| => CompoundSummary(keys[j], groups[keys[j]], |groups[keys[j]]|))
  }

  /** Once every record is filed, projecting the dictionary in `Object.entries` order gives the summaries. */
  lemma ProjectIsSummaries(groups: map<string, seq<CaseStudy>>, order: seq<string>, data: seq<CaseStudy>)
    requires Grouped(groups, order, data)
    ensures forall j :: 0 <= j < |OwnKeysOrder(order)| ==> OwnKeysOrder(order)[j] in groups
    ensures Project(groups, OwnKeysOrder(order)) == Summaries(data)
  {
    var keys := OwnKeysOrder(order);
    OwnKeysPermutation(order);
    forall j | 0 <= j < |keys| ensures keys[j] in groups {
      assert keys[j] in multiset(order);
    }
    var s, t := Project(groups, keys), Summaries(data);
    forall j | 0 <= j < |keys| ensures s[j] == t[j] {
      assert s[j].caseStudies == Bucket(data, keys[j]);
    }
  }

  /**
    The grouping `reduce` and the `Object.entries(...).map(...)` projection.
    `groups` is the dictionary and `order` the order its keys were created in.
   */
  method CompoundSummaries(data: seq<CaseStudy>) returns (summaries: seq<CompoundSummary>)
    requires NoPrototypeCodes(data)
    ensures summaries == Summaries(data)
  {
    var groups: map<string, seq<CaseStudy>> := map[];
    var order: seq<string> := [];
    for i := 0 to |data|
      invariant Grouped(groups, order, data[..i])
    {
      var study := data[i];
      var code := CodeOf(study);
      ghost var groups0, order0 := groups, order;
      if code !in groups {
        groups := groups[code := []];
        order := order + [code];
        assert [] + [study] == [study];
      }
      groups := groups[code := groups[code] + [study]];
      GroupStep(groups0, order0, data[..i], study, groups, order);
      assert data[..i + 1] == data[..i] + [study];
    }
    assert data[..|data|] == data;
    ProjectIsSummaries(groups, order, data);
    summaries := Project(groups, OwnKeysOrder(order));
  }

  /** The summaries are listed under exactly the codes that occur in `data`, each once. */
  lemma SummaryKeys(data: seq<CaseStudy>)
    ensures var keys := OwnKeysOrder(FirstAppearance(data));
      && Distinct(keys)
      && forall k :: k in keys <==> Occurs(data, k)
  {
    var keys := OwnKeysOrder(FirstAppearance(data));
    OwnKeysPermutation(FirstAppearance(data));
    forall k ensures k in keys <==> Occurs(data, k) {
      assert k in keys <==> k in multiset(keys);
      assert k in FirstAppearance(data) <==> k in multiset(FirstAppearance(data));
    }
  }

  /** The bucket of a code that occurs holds at least one record. */
  lemma BucketNonEmpty(data: seq<CaseStudy>, k: string)
    requires Occurs(data, k)
    ensures |Bucket(data, k)| >= 1
  {
    var i :| 0 <= i < |data| && CodeOf(data[i]) == k;
    assert data[i] in data;
    assert data[i] in Bucket(data, k);
  }

  /** Each summary's count is the length of its non-empty bucket, and every record in it has its code. */
  lemma SummaryShape(data: seq<CaseStudy>)
    ensures forall s :: s in Summaries(data) ==>
      && s.totalStudies == |s.caseStudies| >= 1
      && forall r :: r in s.caseStudies ==> CodeOf(r) == s.compoundCode
  {
    var keys := OwnKeysOrder(FirstAppearance(data));
    SummaryKeys(data);
    forall s | s in Summaries(data)
      ensures s.totalStudies == |s.caseStudies| >= 1
    {
      var j :| 0 <= j < |keys| && Summaries(data)[j] == s;
      assert keys[j] in keys;
      BucketNonEmpty(data, keys[j]);
    }
  }

  /** The summary codes are pairwise distinct and are exactly the codes that occur in `data`. */
  lemma SummaryCodes(data: seq<CaseStudy>)
    ensures var s := Summaries(data);
      forall i, j :: 0 <= i < j < |s| ==> s[i].compoundCode != s[j].compoundCode
    ensures var s := Summaries(data);
      forall k :: (exists j :: 0 <= j < |s| && s[j].compoundCode == k) <==> Occurs(data, k)
  {
    var keys := OwnKeysOrder(FirstAppearance(data));
    SummaryKeys(data);
    var s := Summaries(data);
    forall k ensures (exists j :: 0 <= j < |s| && s[j].compoundCode == k) <==> Occurs(data, k) {
      if Occurs(data, k) {
        var j :| 0 <= j < |keys| && keys[j] == k;
        assert s[j].compoundCode == k;
      }
      if exists j :: 0 <= j < |s| && s[j].compoundCode == k {
        var j :| 0 <= j < |s| && s[j].compoundCode == k;
        assert keys[j] in keys;
      }
    }
  }

  /**
    Every record of `data` lies in exactly one summary: the one whose code is
    the record's own.
   */
  lemma EachRecordInOneSummary(data: seq<CaseStudy>, i: nat)
    requires i < |data|
    ensures var s := Summaries(data);
      exists j :: 0 <= j < |s| && s[j].compoundCode == CodeOf(data[i])
    ensures var s := Summaries(data);
      forall j :: 0 <= j < |s| ==> (data[i] in s[j].caseStudies <==> s[j].compoundCode == CodeOf(data[i]))
  {
    SummaryCodes(data);
    SummaryShape(data);
    var s := Summaries(data);
    assert Occurs(data, CodeOf(data[i]));
    forall j | 0 <= j < |s| && s[j].compoundCode == CodeOf(data[i])
      ensures data[i] in s[j].caseStudies
    {
      assert data[i] in data;
    }
    forall j | 0 <= j < |s| && data[i] in s[j].caseStudies
      ensures s[j].compoundCode == CodeOf(data[i])
    {
      assert s[j] in s;
    }
  }

  /** The positions of the records filed under `k`. */
  function BucketPositions(data: seq<CaseStudy>, k: string): seq<nat> {
    KeptPositions(data, CodeIs(k))
  }

  /**
    Within a summary the records keep their input order: its case studies are
    the subsequence of `data` at the increasing positions of exactly the
    records filed under its code.
   */
  lemma BucketKeepsInputOrder(data: seq<CaseStudy>, j: nat)
    requires j < |Summaries(data)|
    ensures var s := Summaries(data)[j];
      && SelectedAt(s.caseStudies, data, BucketPositions(data, s.compoundCode))
      && forall i :: 0 <= i < |data| ==>
           (i in BucketPositions(data, s.compoundCode) <==> CodeOf(data[i]) == s.compoundCode)
  {
    var k := Summaries(data)[j].compoundCode;
    FilterSelects(data, CodeIs(k));
  }

  /** The sum of the summaries' counts. */
  function TotalStudies(s: seq<CompoundSummary>): nat {
    if s == [] then 0 else s[0].totalStudies + TotalStudies(s[1..])
  }

  /** The total of the bucket sizes over `keys`. */
  function BucketSizes(keys: seq<string>, data: seq<CaseStudy>): nat {
    if keys == [] then 0 else |Bucket(data, keys[0])| + BucketSizes(keys[1..], data)
  }

  lemma {:induction false} TotalStudiesIsBucketSizes(keys: seq<string>, data: seq<CaseStudy>)
    ensures TotalStudies(SummariesFor(keys, data)) == BucketSizes(keys, data)
  {
    if keys != [] {
      TotalStudiesIsBucketSizes(keys[1..], data);
      assert SummariesFor(keys, data)[1..] == SummariesFor(keys[1..], data);
    }
  }

  /** Adding one record in front adds one to the total exactly when its code is among `keys`. */
  lemma {:induction false} BucketSizesCons(keys: seq<string>, d: CaseStudy, rest: seq<CaseStudy>)
    requires Distinct(keys)
    ensures BucketSizes(keys, [d] + rest) == BucketSizes(keys, rest) + (if CodeOf(d) in keys then 1 else 0)
  {
    if keys != [] {
      assert Distinct(keys[1..]);
      BucketSizesCons(keys[1..], d, rest);
      assert ([d] + rest)[1..] == rest;
      assert CodeOf(d) == keys[0] ==> CodeOf(d) !in keys[1..];
    }
  }

  /** Over distinct keys covering every code, the bucket sizes add up to the number of records. */
  lemma {:induction false} BucketSizesTotal(keys: seq<string>, data: seq<CaseStudy>)
    requires Distinct(keys)
    requires forall i :: 0 <= i < |data| ==> CodeOf(data[i]) in keys
    ensures BucketSizes(keys, data) == |data|
  {
    if data == [] {
      BucketSizesEmpty(keys);
    } else {
      BucketSizesTotal(keys, data[1..]);
      BucketSizesCons(keys, data[0], data[1..]);
      assert [data[0]] + data[1..] == data;
    }
  }

  lemma {:induction false} BucketSizesEmpty(keys: seq<string>)
    ensures BucketSizes(keys, []) == 0
  {
    if keys != [] {
      BucketSizesEmpty(keys[1..]);
    }
  }

  /** No record is lost or counted twice: the counts add up to the number of records. */
  lemma TotalStudiesConserved(data: seq<CaseStudy>)
    ensures TotalStudies(Summaries(data)) == |data|
  {
    var keys := OwnKeysOrder(FirstAppearance(data));
    SummaryKeys(data);
    TotalStudiesIsBucketSizes(keys, data);
    forall i | 0 <= i < |data| ensures CodeOf(data[i]) in keys {
      assert Occurs(data, CodeOf(data[i]));
    }
    BucketSizesTotal(keys, data);
  }

  /**
    First-appearance order: of two codes, the one listed earlier has already
    occurred in some prefix of `data` in which the later one has not.
   */
  lemma {:induction false} FirstAppearanceOrder(data: seq<CaseStudy>, i: nat, j: nat)
    requires i < j < |FirstAppearance(data)|
    ensures exists p :: (0 <= p <= |data|
      && Occurs(data[..p], FirstAppearance(data)[i])
      && !Occurs(data[..p], FirstAppearance(data)[j]))
    decreases |data|
  {
    var init := data[..|data| - 1];
    var prev := FirstAppearance(init);
    if j < |prev| {
      FirstAppearanceOrder(init, i, j);
      var p :| 0 <= p <= |init| && Occurs(init[..p], prev[i]) && !Occurs(init[..p], prev[j]);
      assert init[..p] == data[..p];
    } else {
      assert data[..|init|] == init;
    }
  }

  /**
    When no compound code is a canonical array index (for instance "CPD-1"),
    the summaries come out in first-appearance order of their codes.
   */
  lemma SummariesInFirstAppearanceOrder(data: seq<CaseStudy>)
    requires forall i :: 0 <= i < |data| ==> !IsArrayIndex(CodeOf(data[i]))
    ensures var s := Summaries(data);
      |s| == |FirstAppearance(data)|
      && forall j :: 0 <= j < |s| ==> s[j].compoundCode == FirstAppearance(data)[j]
  {
    forall k | k in FirstAppearance(data) ensures !IsArrayIndex(k) {
      assert Occurs(data, k);
    }
    NamedKeysKeepInsertionOrder(FirstAppearance(data));
  }

  /**
    `Math.round(n / k)` for `n >= 0` and `k > 0`, in integers; `0` when there
    are no compounds.
   */
  function Average(total: nat, compounds: nat): (r: nat)
    ensures compounds == 0 ==> r == 0
    ensures compounds > 0 ==> 2 * r * compounds - compounds <= 2 * total < 2 * r * compounds + compounds
  {
    if compounds > 0 then
      var q := (2 * total + compounds) / (2 * compounds);
      var m := (2 * total + compounds) % (2 * compounds);
      assert 2 * total + compounds == q * (2 * compounds) + m;
      assert 2 * q * compounds == q * (2 * compounds);
      q
    else 0
  }

  datatype Stats = Stats(totalCompounds: nat, totalCaseStudies: nat, averageStudiesPerCompound: nat)

  /**
    The three figures the summary view shows: one compound per distinct code,
    one case study per record, and the rounded mean of studies per compound.
   */
  function StatsOf(data: seq<CaseStudy>): (st: Stats)
    ensures st.totalCompounds == |FirstAppearance(data)| <= st.totalCaseStudies == |data|
    ensures st.averageStudiesPerCompound == Average(|data|, |FirstAppearance(data)|)
  {
    var s := Summaries(data);
    SummaryCodesBound(data);
    Stats(|s|, |data|, Average(|data|, |s|))
  }

  /**
    The statistics agree with the summaries: the compound count is the number
    of distinct codes, the case-study count is the sum of the summary counts,
    and the average is zero exactly when there is no record.
   */
  lemma StatsConsistent(data: seq<CaseStudy>)
    ensures StatsOf(data).totalCompounds == |FirstAppearance(data)|
    ensures StatsOf(data).totalCaseStudies == TotalStudies(Summaries(data))
    ensures StatsOf(data).averageStudiesPerCompound == 0 <==> data == []
  {
    OwnKeysPermutation(FirstAppearance(data));
    assert |OwnKeysOrder(FirstAppearance(data))| == |multiset(FirstAppearance(data))|;
    TotalStudiesConserved(data);
    var n, k := |data|, |FirstAppearance(data)|;
    if data != [] {
      assert Occurs(data, CodeOf(data[0]));
      assert k >= 1;
      assert k <= n by { SummaryCodesBound(data); }
    }
  }

  /** No records: no summaries and all three figures zero, with no division by zero. */
  lemma NoRecordsNoSummaries()
    ensures Summaries([]) == []
    ensures StatsOf([]) == Stats(0, 0, 0)
  {
  }

  /** There are never more distinct codes than records. */
  lemma {:induction false} SummaryCodesBound(data: seq<CaseStudy>)
    ensures |FirstAppearance(data)| <= |data|
    decreases |data|
  {
    if data != [] {
      SummaryCodesBound(data[..|data| - 1]);
    }
  }

  /** What the summary component renders. */
  datatype View =
    | ProcessingView
    | EmptyView
    | SummaryView(stats: Stats, summaries: seq<CompoundSummary>)

  /**
    The processing placeholder wins over everything; otherwise no data shows
    the empty placeholder, and only non-empty data shows figures and summaries.
   */
  function SelectView(data: seq<CaseStudy>, isProcessing: bool): (v: View)
    ensures v.ProcessingView? <==> isProcessing
    ensures v.EmptyView? <==> !isProcessing && data == []
    ensures v.SummaryView? ==> v.summaries == Summaries(data) && v.stats == StatsOf(data) && |data| > 0
    ensures v.SummaryView? ==> v.stats.totalCompounds == |v.summaries| && v.stats.totalCaseStudies == |data|
  {
    if isProcessing then ProcessingView
    else if |data| == 0 then EmptyView
    else SummaryView(StatsOf(data), Summaries(data))
  }

  /** The codes of three records over two compounds, the first compound twice, in first-appearance order. */
  lemma TwoCompoundsCodes(a: CaseStudy, b: CaseStudy, c: CaseStudy)
    requires CodeOf(a) == CodeOf(b) != CodeOf(c)
    ensures FirstAppearance([a, b, c]) == [CodeOf(a), CodeOf(c)]
  {
    FirstAppearanceSnoc([], a);
    assert [] + [a] == [a];
    FirstAppearanceSnoc([a], b);
    assert [a] + [b] == [a, b];
    FirstAppearanceSnoc([a, b], c);
    assert [a, b] + [c] == [a, b, c];
  }

  /** The buckets of three records over two compounds, the first compound twice. */
  lemma TwoCompoundsBuckets(a: CaseStudy, b: CaseStudy, c: CaseStudy)
    requires CodeOf(a) == CodeOf(b) != CodeOf(c)
    ensures Bucket([a, b, c], CodeOf(a)) == [a, b]
    ensures Bucket([a, b, c], CodeOf(c)) == [c]
  {
    assert [] + [a] == [a] && [a] + [b] == [a, b] && [a, b] + [c] == [a, b, c];
    BucketSnoc([], a, CodeOf(a));
    BucketSnoc([a], b, CodeOf(a));
    BucketSnoc([a, b], c, CodeOf(a));
    BucketSnoc([], a, CodeOf(c));
    BucketSnoc([a], b, CodeOf(c));
    BucketSnoc([a, b], c, CodeOf(c));
  }

  /** Three records over two compounds with non-numeric codes: two summaries, in input order. */
  lemma TwoCompoundsSummary(a: CaseStudy, b: CaseStudy, c: CaseStudy)
    requires CodeOf(a) == CodeOf(b) != CodeOf(c)
    requires !IsArrayIndex(CodeOf(a)) && !IsArrayIndex(CodeOf(c))
    ensures Summaries([a, b, c]) == [
      CompoundSummary(CodeOf(a), [a, b], 2),
      CompoundSummary(CodeOf(c), [c], 1)]
    ensures StatsOf([a, b, c]) == Stats(2, 3, 2)
  {
    TwoCompoundsCodes(a, b, c);
    TwoCompoundsBuckets(a, b, c);
    NamedKeysKeepInsertionOrder([CodeOf(a), CodeOf(c)]);
  }
}
