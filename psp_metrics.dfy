/**
 * The PSP metrics page's data step: flat per-(period, vendor) metric records
 * are reshaped into one wide row per period, each carrying every vendor's
 * measures under vendor-qualified keys, sorted by period. Measures are of an
 * arbitrary type `V`; nothing is computed on them.
 */
module PspMetrics {
  import opened Options
  import opened JsStrings

  /** The seven measures of a metric record. */
  datatype Field =
    | AllApisDownTimes
    | AllApisCallCount
    | HealthApiDownTimes
    | PaymentDownTimes
    | InitialDelayAverageInMillis
    | PaymentDelayAverageInMillis
    | VerificationDelayAverageInMillis

  /** The property name of a measure; none contains an underscore. */
  function FieldName(f: Field): (name: string)
    ensures '_' !in name
  {
    match f
    case AllApisDownTimes => "allApisDownTimes"
    case AllApisCallCount => "allApisCallCount"
    case HealthApiDownTimes => "healthApiDownTimes"
    case PaymentDownTimes => "paymentDownTimes"
    case InitialDelayAverageInMillis => "initialDelayAverageInMillis"
    case PaymentDelayAverageInMillis => "paymentDelayAverageInMillis"
    case VerificationDelayAverageInMillis => "verificationDelayAverageInMillis"
  }

  lemma FieldNameInjective(f: Field, g: Field)
    requires FieldName(f) == FieldName(g)
    ensures f == g
  {
  }

  /** One upstream record. `psp` is a vendor tag; unknown tags pass through. */
  datatype PspMetric<V> = PspMetric(
    timePeriod: string,
    psp: string,
    allApisDownTimes: V,
    allApisCallCount: V,
    healthApiDownTimes: V,
    paymentDownTimes: V,
    initialDelayAverageInMillis: V,
    paymentDelayAverageInMillis: V,
    verificationDelayAverageInMillis: V)

  function Measure<V>(m: PspMetric<V>, f: Field): V
  {
    match f
    case AllApisDownTimes => m.allApisDownTimes
    case AllApisCallCount => m.allApisCallCount
    case HealthApiDownTimes => m.healthApiDownTimes
    case PaymentDownTimes => m.paymentDownTimes
    case InitialDelayAverageInMillis => m.initialDelayAverageInMillis
    case PaymentDelayAverageInMillis => m.paymentDelayAverageInMillis
    case VerificationDelayAverageInMillis => m.verificationDelayAverageInMillis
  }

  /** A wide-row cell: the period text, or one measure. */
  datatype Cell<V> = Text(text: string) | Value(value: V)

  /** A wide row, a plain object keyed by property name. */
  type Row<V> = map<string, Cell<V>>

  const PeriodKey := "timePeriod"

  /** The property name `${psp}_${field}`. */
  function VendorKey(psp: string, f: Field): string
  {
    psp + "_" + FieldName(f)
  }

  /** Joining with `_` is reversible when the right part has no `_` of its own. */
  lemma UnderscoreJoinInjective(p: string, a: string, q: string, b: string)
    requires '_' !in a && '_' !in b
    requires p + "_" + a == q + "_" + b
    ensures p == q && a == b
  {
    var s := p + "_" + a;
    assert s[|p|] == '_' && s[|q|] == '_';
    if |p| < |q| {
      assert false;
    } else if |q| < |p| {
      assert false;
    }
    assert p == s[..|p|] && q == s[..|q|];
    assert a == s[|p| + 1..] == b;
  }

  /** Distinct (vendor, measure) pairs never share a property name. */
  lemma VendorKeyInjective(p: string, f: Field, q: string, g: Field)
    requires VendorKey(p, f) == VendorKey(q, g)
    ensures p == q && f == g
  {
    UnderscoreJoinInjective(p, FieldName(f), q, FieldName(g));
    FieldNameInjective(f, g);
  }

  /** No vendor-qualified name is `timePeriod`, so vendor writes never touch the period cell. */
  lemma VendorKeyIsNotPeriodKey(p: string, f: Field)
    ensures VendorKey(p, f) != PeriodKey
  {
    assert VendorKey(p, f)[|p|] == '_';
    assert '_' !in PeriodKey;
  }

  /** The seven measures, in the order the source writes them. */
  const Fields: seq<Field> := [AllApisDownTimes, AllApisCallCount, HealthApiDownTimes, PaymentDownTimes,
    InitialDelayAverageInMillis, PaymentDelayAverageInMillis, VerificationDelayAverageInMillis]

  lemma FieldsComplete(f: Field)
    ensures f in Fields
  {
  }

  /** Writes the measures `fs` of record `m` into `row`, left to right. */
  function WriteFields<V>(row: Row<V>, m: PspMetric<V>, fs: seq<Field>): Row<V>
    decreases fs
  {
    if fs == [] then row
    else WriteFields(row[VendorKey(m.psp, fs[0]) := Value(Measure(m, fs[0]))], m, fs[1..])
  }

  /** The seven writes of one record into its period's row. */
  function WriteMeasures<V>(row: Row<V>, m: PspMetric<V>): Row<V>
  {
    WriteFields(row, m, Fields)
  }

  /** The seven writes, spelled out as the source performs them. */
  lemma WriteMeasuresUnfolded<V>(row: Row<V>, m: PspMetric<V>)
    ensures WriteMeasures(row, m) ==
      row[VendorKey(m.psp, AllApisDownTimes) := Value(m.allApisDownTimes)]
         [VendorKey(m.psp, AllApisCallCount) := Value(m.allApisCallCount)]
         [VendorKey(m.psp, HealthApiDownTimes) := Value(m.healthApiDownTimes)]
         [VendorKey(m.psp, PaymentDownTimes) := Value(m.paymentDownTimes)]
         [VendorKey(m.psp, InitialDelayAverageInMillis) := Value(m.initialDelayAverageInMillis)]
         [VendorKey(m.psp, PaymentDelayAverageInMillis) := Value(m.paymentDelayAverageInMillis)]
         [VendorKey(m.psp, VerificationDelayAverageInMillis) := Value(m.verificationDelayAverageInMillis)]
  {
    var r1 := row[VendorKey(m.psp, AllApisDownTimes) := Value(m.allApisDownTimes)];
    var r2 := r1[VendorKey(m.psp, AllApisCallCount) := Value(m.allApisCallCount)];
    var r3 := r2[VendorKey(m.psp, HealthApiDownTimes) := Value(m.healthApiDownTimes)];
    var r4 := r3[VendorKey(m.psp, PaymentDownTimes) := Value(m.paymentDownTimes)];
    var r5 := r4[VendorKey(m.psp, InitialDelayAverageInMillis) := Value(m.initialDelayAverageInMillis)];
    var r6 := r5[VendorKey(m.psp, PaymentDelayAverageInMillis) := Value(m.paymentDelayAverageInMillis)];
    var r7 := r6[VendorKey(m.psp, VerificationDelayAverageInMillis) := Value(m.verificationDelayAverageInMillis)];
    assert WriteFields(row, m, Fields) == WriteFields(r1, m, Fields[1..]);
    assert WriteFields(r1, m, Fields[1..]) == WriteFields(r2, m, Fields[2..]);
    assert WriteFields(r2, m, Fields[2..]) == WriteFields(r3, m, Fields[3..]);
    assert WriteFields(r3, m, Fields[3..]) == WriteFields(r4, m, Fields[4..]);
    assert WriteFields(r4, m, Fields[4..]) == WriteFields(r5, m, Fields[5..]);
    assert WriteFields(r5, m, Fields[5..]) == WriteFields(r6, m, Fields[6..]);
    assert WriteFields(r6, m, Fields[6..]) == WriteFields(r7, m, Fields[7..]);
  }

  /** After writing `fs`, their keys hold the record's measures and every other key is as before. */
  lemma {:induction false} WriteFieldsEffect<V>(row: Row<V>, m: PspMetric<V>, fs: seq<Field>)
    ensures forall f :: f in fs ==> VendorKey(m.psp, f) in WriteFields(row, m, fs)
    ensures forall f :: f in fs ==> WriteFields(row, m, fs)[VendorKey(m.psp, f)] == Value(Measure(m, f))
    ensures forall k :: k in WriteFields(row, m, fs) <==>
      k in row || exists f :: f in fs && k == VendorKey(m.psp, f)
    ensures forall k :: k in row && (forall f :: f in fs ==> k != VendorKey(m.psp, f)) ==>
      WriteFields(row, m, fs)[k] == row[k]
    decreases fs
  {
    if fs != [] {
      var row' := row[VendorKey(m.psp, fs[0]) := Value(Measure(m, fs[0]))];
      WriteFieldsEffect(row', m, fs[1..]);
      var r := WriteFields(row, m, fs);
      assert r == WriteFields(row', m, fs[1..]);
      forall f | f in fs ensures r[VendorKey(m.psp, f)] == Value(Measure(m, f)) {
        if f !in fs[1..] {
          forall g | g in fs[1..] ensures VendorKey(m.psp, f) != VendorKey(m.psp, g) {
            if VendorKey(m.psp, f) == VendorKey(m.psp, g) {
              VendorKeyInjective(m.psp, f, m.psp, g);
            }
          }
        }
      }
      forall k | k in r ensures k in row || exists f :: f in fs && k == VendorKey(m.psp, f) {
        if k !in row && k == VendorKey(m.psp, fs[0]) {
          assert fs[0] in fs;
        }
      }
    }
  }

  /** After the seven writes, the record's keys hold its measures and every other key is as before. */
  lemma WriteMeasuresEffect<V>(row: Row<V>, m: PspMetric<V>)
    ensures forall f :: VendorKey(m.psp, f) in WriteMeasures(row, m)
    ensures forall f :: WriteMeasures(row, m)[VendorKey(m.psp, f)] == Value(Measure(m, f))
    ensures forall k :: k in WriteMeasures(row, m) <==> k in row || exists f :: k == VendorKey(m.psp, f)
    ensures forall k :: k in row && (forall f :: k != VendorKey(m.psp, f)) ==> WriteMeasures(row, m)[k] == row[k]
  {
    WriteFieldsEffect(row, m, Fields);
    forall f ensures f in Fields {
      FieldsComplete(f);
    }
  }

  /** One step of the `reduce`: create the period's row if missing, then write the record into it. */
  function Accumulate<V>(acc: map<string, Row<V>>, m: PspMetric<V>): map<string, Row<V>>
  {
    var row := if m.timePeriod in acc then acc[m.timePeriod] else map[PeriodKey := Text(m.timePeriod)];
    acc[m.timePeriod := WriteMeasures(row, m)]
  }

  /** The grouped object after folding every record in input order. */
  function Group<V>(es: seq<PspMetric<V>>): map<string, Row<V>>
  {
    if es == [] then map[] else Accumulate(Group(es[..|es| - 1]), es[|es| - 1])
  }

  /** Some record has period `p`. */
  ghost predicate Occurs<V>(es: seq<PspMetric<V>>, p: string)
  {
    exists i :: 0 <= i < |es| && es[i].timePeriod == p
  }

  /** The last record, in input order, with period `p` and vendor `v`. */
  function LastFor<V>(es: seq<PspMetric<V>>, p: string, v: string): (r: Option<PspMetric<V>>)
    ensures r.Some? ==> r.value.timePeriod == p && r.value.psp == v && r.value in es
    ensures r.Some? <==> exists i :: 0 <= i < |es| && es[i].timePeriod == p && es[i].psp == v
  {
    if es == [] then None
    else if es[|es| - 1].timePeriod == p && es[|es| - 1].psp == v then Some(es[|es| - 1])
    else
      var r := LastFor(es[..|es| - 1], p, v);
      assert forall i :: 0 <= i < |es| - 1 ==> es[i] == es[..|es| - 1][i];
      r
  }

  /**
   * What the row for period `p` must be: its `timePeriod` cell is `p`; a
   * vendor's seven keys are present exactly when that vendor has a record for
   * `p`, and hold that vendor's last such record; there is nothing else.
   */
  ghost predicate RowSpec<V>(row: Row<V>, es: seq<PspMetric<V>>, p: string)
  {
    && PeriodKey in row && row[PeriodKey] == Text(p)
    && (forall v, f :: VendorKey(v, f) in row <==> LastFor(es, p, v).Some?)
    && (forall v, f :: LastFor(es, p, v).Some? ==>
          row[VendorKey(v, f)] == Value(Measure(LastFor(es, p, v).value, f)))
    && (forall k :: k in row ==> k == PeriodKey || exists v, f :: k == VendorKey(v, f))
  }

  /** A period's specification pins its row down completely. */
  lemma RowSpecUnique<V>(r1: Row<V>, r2: Row<V>, es: seq<PspMetric<V>>, p: string)
    requires RowSpec(r1, es, p) && RowSpec(r2, es, p)
    ensures r1 == r2
  {
    forall k | k in r1 ensures k in r2 && r1[k] == r2[k] {
      if k != PeriodKey {
        var v, f :| k == VendorKey(v, f);
      }
    }
    forall k | k in r2 ensures k in r1 {
      if k != PeriodKey {
        var v, f :| k == VendorKey(v, f);
      }
    }
  }

  /** A period's first record starts from the bare `{timePeriod}` row. */
  lemma FreshRowSpec<V>(es: seq<PspMetric<V>>, p: string)
    requires !Occurs(es, p)
    ensures RowSpec(map[PeriodKey := Text(p)], es, p)
  {
    var row: Row<V> := map[PeriodKey := Text(p)];
    forall v, f ensures VendorKey(v, f) !in row && LastFor(es, p, v).None? {
      VendorKeyIsNotPeriodKey(v, f);
    }
  }

  /** One vendor key after writing record `m`: present and holding the last record exactly as the specification asks. */
  lemma WriteMeasuresCell<V>(row: Row<V>, es: seq<PspMetric<V>>, m: PspMetric<V>, v: string, f: Field)
    requires RowSpec(row, es, m.timePeriod)
    ensures VendorKey(v, f) in WriteMeasures(row, m) <==> LastFor(es + [m], m.timePeriod, v).Some?
    ensures LastFor(es + [m], m.timePeriod, v).Some? ==>
      WriteMeasures(row, m)[VendorKey(v, f)] == Value(Measure(LastFor(es + [m], m.timePeriod, v).value, f))
  {
    var es' := es + [m];
    assert es'[..|es'| - 1] == es;
    WriteMeasuresEffect(row, m);
    if v != m.psp {
      forall g ensures VendorKey(v, f) != VendorKey(m.psp, g) {
        if VendorKey(v, f) == VendorKey(m.psp, g) {
          VendorKeyInjective(v, f, m.psp, g);
        }
      }
      assert LastFor(es', m.timePeriod, v) == LastFor(es, m.timePeriod, v);
    }
  }

  /** Writing record `m` into a row that meets the specification for the records before it. */
  lemma WriteMeasuresSpec<V>(row: Row<V>, es: seq<PspMetric<V>>, m: PspMetric<V>)
    requires RowSpec(row, es, m.timePeriod)
    ensures RowSpec(WriteMeasures(row, m), es + [m], m.timePeriod)
  {
    var r := WriteMeasures(row, m);
    WriteMeasuresEffect(row, m);
    forall f ensures VendorKey(m.psp, f) != PeriodKey {
      VendorKeyIsNotPeriodKey(m.psp, f);
    }
    forall v, f ensures VendorKey(v, f) in r <==> LastFor(es + [m], m.timePeriod, v).Some? {
      WriteMeasuresCell(row, es, m, v, f);
    }
    forall v, f | LastFor(es + [m], m.timePeriod, v).Some?
      ensures r[VendorKey(v, f)] == Value(Measure(LastFor(es + [m], m.timePeriod, v).value, f))
    {
      WriteMeasuresCell(row, es, m, v, f);
    }
  }

  /** Grouping one more record is one more `Accumulate` step. */
  lemma GroupSnoc<V>(es: seq<PspMetric<V>>, i: nat)
    requires i < |es|
    ensures Group(es[..i + 1]) == Accumulate(Group(es[..i]), es[i])
  {
    assert es[..i + 1][..i] == es[..i];
  }

  /** A record for another period leaves a period's last records, and so its specification, alone. */
  lemma RowSpecOtherPeriod<V>(row: Row<V>, es: seq<PspMetric<V>>, m: PspMetric<V>, p: string)
    requires p != m.timePeriod && RowSpec(row, es, p)
    ensures RowSpec(row, es + [m], p)
  {
    assert (es + [m])[..|es|] == es;
    assert forall v :: LastFor(es + [m], p, v) == LastFor(es, p, v);
  }

  /** The periods present after one more record. */
  lemma OccursSnoc<V>(es: seq<PspMetric<V>>, m: PspMetric<V>, p: string)
    ensures Occurs(es + [m], p) <==> Occurs(es, p) || p == m.timePeriod
  {
    var es' := es + [m];
    if Occurs(es', p) && p != m.timePeriod {
      var i :| 0 <= i < |es'| && es'[i].timePeriod == p;
      assert es[i] == es'[i];
    }
    if Occurs(es, p) {
      var i :| 0 <= i < |es| && es[i].timePeriod == p;
      assert es'[i] == es[i];
    }
    if p == m.timePeriod {
      assert es'[|es|] == m;
    }
  }

  /** The invariant of the fold is kept by one `Accumulate` step. */
  lemma AccumulateSpec<V>(es: seq<PspMetric<V>>, m: PspMetric<V>)
    requires forall p :: p in Group(es) <==> Occurs(es, p)
    requires forall p :: p in Group(es) ==> RowSpec(Group(es)[p], es, p)
    ensures forall p :: p in Accumulate(Group(es), m) <==> Occurs(es + [m], p)
    ensures forall p :: p in Accumulate(Group(es), m) ==> RowSpec(Accumulate(Group(es), m)[p], es + [m], p)
  {
    var g0 := Group(es);
    var g := Accumulate(g0, m);
    var row := if m.timePeriod in g0 then g0[m.timePeriod] else map[PeriodKey := Text(m.timePeriod)];
    if m.timePeriod !in g0 {
      FreshRowSpec(es, m.timePeriod);
    }
    WriteMeasuresSpec(row, es, m);
    forall p ensures p in g <==> Occurs(es + [m], p) {
      OccursSnoc(es, m, p);
    }
    forall p | p in g && p != m.timePeriod ensures RowSpec(g[p], es + [m], p) {
      RowSpecOtherPeriod(g0[p], es, m, p);
    }
  }

  /** The grouped object has one row per period present, each meeting its specification. */
  lemma {:induction false} GroupSpec<V>(es: seq<PspMetric<V>>)
    ensures forall p :: p in Group(es) <==> Occurs(es, p)
    ensures forall p :: p in Group(es) ==> RowSpec(Group(es)[p], es, p)
    decreases |es|
  {
    if es != [] {
      var init, m := es[..|es| - 1], es[|es| - 1];
      assert es == init + [m];
      GroupSpec(init);
      AccumulateSpec(init, m);
    }
  }

  /**
   * Any two inputs with the same periods and the same last record per
   * (period, vendor) group identically: reordering records changes nothing as
   * long as records sharing a (period, vendor) pair keep their relative order.
   */
  lemma GroupDeterminedByLastRecords<V>(es1: seq<PspMetric<V>>, es2: seq<PspMetric<V>>)
    requires forall p :: Occurs(es1, p) <==> Occurs(es2, p)
    requires forall p, v :: LastFor(es1, p, v) == LastFor(es2, p, v)
    ensures Group(es1) == Group(es2)
  {
    GroupSpec(es1);
    GroupSpec(es2);
    forall p | p in Group(es1) ensures p in Group(es2) && Group(es1)[p] == Group(es2)[p] {
      assert RowSpec(Group(es2)[p], es1, p);
      RowSpecUnique(Group(es1)[p], Group(es2)[p], es1, p);
    }
  }

  /** The period a row carries in its `timePeriod` cell. */
  function RowPeriod<V>(row: Row<V>): string
  {
    if PeriodKey in row && row[PeriodKey].Text? then row[PeriodKey].text else ""
  }

  /** The rows' `.sort((a, b) => a.timePeriod.localeCompare(b.timePeriod))`, on their distinct periods. */
  method SortPeriods(periods: seq<string>) returns (sorted: seq<string>)
    requires forall i, j :: 0 <= i < j < |periods| ==> periods[i] != periods[j]
    ensures Ascending(sorted)
    ensures multiset(sorted) == multiset(periods)
  {
    sorted := [];
    for i := 0 to |periods|
      invariant Ascending(sorted)
      invariant multiset(sorted) == multiset(periods[..i])
    {
      assert periods[i] !in periods[..i];
      assert periods[i] !in sorted by {
        assert periods[i] !in multiset(periods[..i]);
      }
      sorted := InsertAscending(sorted, periods[i]);
      assert periods[..i + 1] == periods[..i] + [periods[i]];
    }
    assert periods[..|periods|] == periods;
  }

  /** The seven assignments into the period's row, in source order. */
  method WriteRecord<V>(row: Row<V>, m: PspMetric<V>) returns (row': Row<V>)
    ensures row' == WriteMeasures(row, m)
  {
    row' := row;
    row' := row'[VendorKey(m.psp, AllApisDownTimes) := Value(m.allApisDownTimes)];
    row' := row'[VendorKey(m.psp, AllApisCallCount) := Value(m.allApisCallCount)];
    row' := row'[VendorKey(m.psp, HealthApiDownTimes) := Value(m.healthApiDownTimes)];
    row' := row'[VendorKey(m.psp, PaymentDownTimes) := Value(m.paymentDownTimes)];
    row' := row'[VendorKey(m.psp, InitialDelayAverageInMillis) := Value(m.initialDelayAverageInMillis)];
    row' := row'[VendorKey(m.psp, PaymentDelayAverageInMillis) := Value(m.paymentDelayAverageInMillis)];
    row' := row'[VendorKey(m.psp, VerificationDelayAverageInMillis) := Value(m.verificationDelayAverageInMillis)];
    WriteMeasuresUnfolded(row, m);
  }


  /** One reducer step adds the record's period to the grouped object's keys, and nothing else. */
  lemma AccumulateKeys<V>(acc: map<string, Row<V>>, m: PspMetric<V>)
    ensures Accumulate(acc, m).Keys == acc.Keys + {m.timePeriod}
  {
  }

  /**
   * The `reduce` callback: create the period's row on first sight (recording
   * the period in insertion order), then write the record's seven measures.
   */
  method AddRecord<V>(acc: map<string, Row<V>>, order: seq<string>, m: PspMetric<V>)
    returns (acc': map<string, Row<V>>, order': seq<string>)
    ensures acc' == Accumulate(acc, m)
    ensures order' == if m.timePeriod in acc then order else order + [m.timePeriod]
  {
    var p := m.timePeriod;
    acc', order' := acc, order;
    if p !in acc' {
      acc' := acc'[p := map[PeriodKey := Text(p)]];
      order' := order' + [p];
    }
    var row := WriteRecord(acc'[p], m);
    acc' := acc'[p := row];
  }

  /** `order` lists the keys `keys`, each exactly once. */
  ghost predicate Tracks(order: seq<string>, keys: set<string>)
  {
    && (forall p :: p in order <==> p in keys)
    && (forall a, b :: 0 <= a < b < |order| ==> order[a] != order[b])
  }

  /** Appending a period on first sight keeps the list of periods in step with the keys. */
  lemma TracksStep(order: seq<string>, keys: set<string>, p: string)
    requires Tracks(order, keys)
    ensures Tracks(if p in keys then order else order + [p], keys + {p})
  {
  }

  /** The `reduce` over the records, with the periods in the order their rows were created. */
  method GroupRecords<V>(es: seq<PspMetric<V>>) returns (acc: map<string, Row<V>>, order: seq<string>)
    ensures acc == Group(es)
    ensures Tracks(order, acc.Keys)
    ensures |order| <= |es|
  {
    acc, order := map[], [];
    for i := 0 to |es|
      invariant acc == Group(es[..i])
      invariant |order| <= i
      invariant Tracks(order, acc.Keys)
    {
      GroupSnoc(es, i);
      AccumulateKeys(acc, es[i]);
      TracksStep(order, acc.Keys, es[i].timePeriod);
      acc, order := AddRecord(acc, order, es[i]);
    }
    assert es[..|es|] == es;
  }

  /**
   * The chart data: `[]` when the response has no `elements`; otherwise one
   * row per distinct period, strictly ascending by period, each row exactly
   * the last-write-wins projection of that period's records.
   */
  method Reshape<V>(elements: Option<seq<PspMetric<V>>>) returns (rows: seq<Row<V>>)
    ensures elements.None? ==> rows == []
    ensures elements == Some([]) ==> rows == []
    ensures elements.Some? ==> forall i :: 0 <= i < |rows| ==>
      Occurs(elements.value, RowPeriod(rows[i])) && RowSpec(rows[i], elements.value, RowPeriod(rows[i]))
    ensures elements.Some? ==> forall p :: Occurs(elements.value, p) ==>
      exists i :: 0 <= i < |rows| && RowPeriod(rows[i]) == p
    ensures forall i, j :: 0 <= i < j < |rows| ==> Less(RowPeriod(rows[i]), RowPeriod(rows[j]))
  {
    if elements.None? {
      return [];
    }
    rows := ReshapeRecords(elements.value);
  }

  /** The reshaper once the response has arrived: group, then sort by period. */
  method ReshapeRecords<V>(es: seq<PspMetric<V>>) returns (rows: seq<Row<V>>)
    ensures es == [] ==> rows == []
    ensures forall i :: 0 <= i < |rows| ==> Occurs(es, RowPeriod(rows[i])) && RowSpec(rows[i], es, RowPeriod(rows[i]))
    ensures forall p :: Occurs(es, p) ==> exists i :: 0 <= i < |rows| && RowPeriod(rows[i]) == p
    ensures forall i, j :: 0 <= i < j < |rows| ==> Less(RowPeriod(rows[i]), RowPeriod(rows[j]))
  {
    var acc, order := GroupRecords(es);
    var periods := SortPeriods(order);
    forall k | 0 <= k < |periods| ensures periods[k] in acc {
      assert periods[k] in multiset(order);
    }
    rows := seq(|periods|, k requires 0 <= k < |periods| => acc[periods[k]]);
    RowsOfSortedPeriods(es, order, periods, rows);
  }

  /** Looking up the sorted periods in the grouped object gives rows that meet the reshaper's contract. */
  lemma RowsOfSortedPeriods<V>(es: seq<PspMetric<V>>, order: seq<string>, periods: seq<string>, rows: seq<Row<V>>)
    requires forall p :: p in order <==> p in Group(es)
    requires Ascending(periods) && multiset(periods) == multiset(order)
    requires |rows| == |periods|
    requires forall k :: 0 <= k < |periods| ==> periods[k] in Group(es) && rows[k] == Group(es)[periods[k]]
    ensures forall i :: 0 <= i < |rows| ==> Occurs(es, RowPeriod(rows[i])) && RowSpec(rows[i], es, RowPeriod(rows[i]))
    ensures forall p :: Occurs(es, p) ==> exists i :: 0 <= i < |rows| && RowPeriod(rows[i]) == p
    ensures forall i, j :: 0 <= i < j < |rows| ==> Less(RowPeriod(rows[i]), RowPeriod(rows[j]))
  {
    GroupSpec(es);
    assert forall k :: 0 <= k < |rows| ==> RowPeriod(rows[k]) == periods[k];
    forall p | Occurs(es, p) ensures exists i :: 0 <= i < |rows| && RowPeriod(rows[i]) == p {
      assert p in multiset(periods);
      var i :| 0 <= i < |periods| && periods[i] == p;
      assert RowPeriod(rows[i]) == p;
    }
  }

  /** The aggregation granularity of a request. */
  datatype AggregationPeriod = Day | Week | Month

  /** The request body sent upstream. */
  datatype MetricsRequest = MetricsRequest(
    pspVendors: seq<string>,
    startDate: string,
    endDate: string,
    aggregationPeriod: AggregationPeriod)

  /**
   * Clicking "Fetch Metrics": the button is disabled for an empty vendor
   * selection; otherwise the selection and dates go upstream verbatim.
   */
  function FetchOnClick(selected: seq<string>, startDate: string, endDate: string,
                        aggregation: AggregationPeriod): (r: Option<MetricsRequest>)
    ensures r.Some? <==> |selected| > 0
    ensures r.Some? ==> r.value == MetricsRequest(selected, startDate, endDate, aggregation)
  {
    var disabled := |selected| == 0;
    if disabled then None else Some(MetricsRequest(selected, startDate, endDate, aggregation))
  }

  /** Fixed-width, zero-padded dates sort chronologically: the reshaper puts "1404-09-09" first. */
  lemma PeriodOrderExample()
    ensures Less("1404-09-09", "1404-09-10") && !Less("1404-09-10", "1404-09-09")
  {
    var a, b := "1404-09-09", "1404-09-10";
    assert a[..8] == b[..8] && a[8] < b[8];
    LessAfterCommonPrefix(a, b, 8);
    LessAsymmetric(a, b);
  }

  /** Two records for the same period and vendor: the later one's measures win. */
  lemma LastWriteWinsExample()
    ensures var es := [PspMetric("A", "SAMAN", 1, 0, 0, 0, 0, 0, 0), PspMetric("A", "SAMAN", 2, 0, 0, 0, 0, 0, 0)];
      && "A" in Group(es)
      && VendorKey("SAMAN", AllApisDownTimes) in Group(es)["A"]
      && Group(es)["A"][VendorKey("SAMAN", AllApisDownTimes)] == Value(2)
  {
    var es := [PspMetric("A", "SAMAN", 1, 0, 0, 0, 0, 0, 0), PspMetric("A", "SAMAN", 2, 0, 0, 0, 0, 0, 0)];
    GroupSpec(es);
    assert es[1].timePeriod == "A";
    assert LastFor(es, "A", "SAMAN") == Some(es[1]);
  }
}
