/**
  The transformer's dataset as the loader receives it: what a load of the
  rows built from one `rates` object commits, or why it fails.
 */
module Pipeline {
  import opened Wrappers
  import opened Transform
  import opened Loader

  /** Every code of `rates` is a key of the mapping. */
  predicate AllMapped<R>(entries: seq<(string, R)>, mapping: map<string, string>) {
    forall i :: 0 <= i < |entries| ==> entries[i].0 in mapping
  }

  /** Every code, and every name the mapping gives, fits its column unchanged. */
  predicate AllFit<R>(entries: seq<(string, R)>, mapping: map<string, string>) {
    forall i :: 0 <= i < |entries| ==>
      && |entries[i].0| <= CODE_WIDTH
      && (entries[i].0 in mapping ==> |mapping[entries[i].0]| <= NAME_WIDTH)
  }

  /** When unmapped names bind as SQL NULL, a code missing from the mapping
      makes some insert at or before its row raise, so the batch is never
      committed. */
  lemma UnmappedCodeBlocksLoad<R>(entries: seq<(string, R)>, mapping: map<string, string>, k: int)
    requires 0 <= k < |entries| && entries[k].0 !in mapping
    ensures var r := StoreAll(BindAll(FrameOf(entries, mapping), NullForMissing));
            r.Err? && r.error.index <= k
  {
    var records := BindAll(FrameOf(entries, mapping), NullForMissing);
    FrameOfRowAt(entries, mapping, k);
    assert !Store(records[k]).Ok?;
  }

  /** When the rows before the first unmapped code are mapped and fit their
      columns, and that code fits its column, the load fails at that code's
      row with a NOT NULL violation; rows after it play no part. */
  lemma FirstUnmappedCodeReported<R>(entries: seq<(string, R)>, mapping: map<string, string>, k: int)
    requires 0 <= k < |entries| && entries[k].0 !in mapping && |entries[k].0| <= CODE_WIDTH
    requires forall j :: 0 <= j < k ==>
               && entries[j].0 in mapping
               && |entries[j].0| <= CODE_WIDTH
               && |mapping[entries[j].0]| <= NAME_WIDTH
    ensures StoreAll(BindAll(FrameOf(entries, mapping), NullForMissing))
         == Err(LoadError(k, NotNullViolation("country_currency")))
  {
    var records := BindAll(FrameOf(entries, mapping), NullForMissing);
    forall j | 0 <= j <= k
      ensures Store(records[j]).Ok? <==> j < k
    {
      FrameOfRowAt(entries, mapping, j);
    }
    assert !Store(records[k]).Ok?;
    var r := StoreAll(records);
    assert r.Err?;
    assert r.error.index == k;
  }

  /** When unmapped names bind as the text "NaN" and every row fits its
      columns, the whole dataset is committed, an unmapped code's row carrying
      "NaN". */
  lemma NaNTextLoadsEveryFittingRow<R>(entries: seq<(string, R)>, mapping: map<string, string>)
    requires AllFit(entries, mapping)
    ensures var r := StoreAll(BindAll(FrameOf(entries, mapping), NaNTextForMissing));
            && r.Ok? && |r.value| == |entries|
            && forall i :: 0 <= i < |entries| ==>
                 r.value[i] == Row(if entries[i].0 in mapping then Some(mapping[entries[i].0]) else Some("NaN"),
                                   entries[i].0, entries[i].1)
  {
    var records := BindAll(FrameOf(entries, mapping), NaNTextForMissing);
    forall i | 0 <= i < |entries|
      ensures Store(records[i]) == Ok(Row(if entries[i].0 in mapping then Some(mapping[entries[i].0]) else Some("NaN"),
                                          entries[i].0, entries[i].1))
    {
      FrameOfRowAt(entries, mapping, i);
    }
  }

  /** When every code is mapped and fits, the committed table is exactly the
      dataset, under either binding. */
  lemma MappedRatesLoadExactly<R>(entries: seq<(string, R)>, mapping: map<string, string>, binding: Binding)
    requires AllMapped(entries, mapping) && AllFit(entries, mapping)
    ensures StoreAll(BindAll(FrameOf(entries, mapping), binding)) == Ok(FrameOf(entries, mapping))
  {
    var df := FrameOf(entries, mapping);
    var records := BindAll(df, binding);
    forall i | 0 <= i < |entries|
      ensures Store(records[i]) == Ok(df[i])
    {
      FrameOfRowAt(entries, mapping, i);
    }
    var r := StoreAll(records);
    assert r.value == df;
  }

  /** A committed load holds one row per entry of `rates`, in order, with the
      entry's rate; the code is unchanged when it fits its column, and a
      mapped code whose name fits carries that name. With NULL binding a
      committed load also means every code was mapped. */
  lemma CommittedRowsMatchRates<R>(entries: seq<(string, R)>, mapping: map<string, string>, binding: Binding)
    requires StoreAll(BindAll(FrameOf(entries, mapping), binding)).Ok?
    ensures var rows := StoreAll(BindAll(FrameOf(entries, mapping), binding)).value;
            && |rows| == |entries|
            && (binding == NullForMissing ==> AllMapped(entries, mapping))
            && forall i :: 0 <= i < |entries| ==>
                 && rows[i].rate == entries[i].1
                 && (|entries[i].0| <= CODE_WIDTH ==> rows[i].currencyCode == entries[i].0)
                 && (entries[i].0 in mapping && |mapping[entries[i].0]| <= NAME_WIDTH
                     ==> rows[i].countryCurrency == Some(mapping[entries[i].0]))
  {
    var records := BindAll(FrameOf(entries, mapping), binding);
    var rows := StoreAll(records).value;
    forall i | 0 <= i < |entries|
      ensures && rows[i].rate == entries[i].1
              && (|entries[i].0| <= CODE_WIDTH ==> rows[i].currencyCode == entries[i].0)
              && (entries[i].0 in mapping && |mapping[entries[i].0]| <= NAME_WIDTH
                  ==> rows[i].countryCurrency == Some(mapping[entries[i].0]))
              && (binding == NullForMissing ==> entries[i].0 in mapping)
    {
      FrameOfRowAt(entries, mapping, i);
      assert Store(records[i]) == Ok(rows[i]);
    }
  }
}
