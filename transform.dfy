/**
  `transform_json_to_dataframe`: the decoded API payload becomes a dataset of
  rows (Country_Currency, Currency_Code, Rate), one row per entry of the
  payload's `rates` object, in the object's order, with the display name looked
  up in the currency mapping. The rate is never inspected, so its type is a
  parameter.
 */
module Transform {
  import opened Wrappers

  /** The `rates` member of the decoded JSON payload. JSON object keys are
      strings and a decoded object keeps the order of its keys. */
  datatype RatesField<R> =
    | Missing                                // the payload has no `rates` key
    | Object(entries: seq<(string, R)>)      // a JSON object: code -> rate
    | NonObject                              // null, a list, a number or a string

  /** The decoded payload; every member other than `rates` is ignored. */
  datatype Payload<R> = Payload(rates: RatesField<R>)

  /** `.items()` called on a `rates` value that is not a dict. */
  datatype TransformError = AttributeError

  /** One row of the dataset, its fields in the dataset's column order. */
  datatype Row<R> = Row(countryCurrency: Option<string>, currencyCode: string, rate: R)

  /** A decoded JSON object never repeats a key. */
  predicate DistinctCodes<R>(entries: seq<(string, R)>) {
    forall i, j :: 0 <= i < j < |entries| ==> entries[i].0 != entries[j].0
  }

  /** A dict used as the argument of `Series.map`: a code that is not a key
      gives a missing value, never an error. */
  function Lookup(mapping: map<string, string>, code: string): (name: Option<string>)
    ensures name.Some? <==> code in mapping
    ensures name.Some? ==> name.value == mapping[code]
  {
    if code in mapping then Some(mapping[code]) else None
  }

  /** `data.get('rates', {}).items()`. */
  function RateItems<R>(payload: Payload<R>): (r: Result<seq<(string, R)>, TransformError>)
    ensures r.Err? <==> payload.rates.NonObject?
    ensures payload.rates.Missing? ==> r == Ok([])
    ensures payload.rates.Object? ==> r == Ok(payload.rates.entries)
  {
    match payload.rates
    case Missing => Ok([])
    case Object(entries) => Ok(entries)
    case NonObject => Err(AttributeError)
  }

  /** The `Currency_Code` column of the frame built from the pairs. */
  function PairCodes<R>(pairs: seq<(string, R)>): seq<string> {
    seq(|pairs|, i requires 0 <= i < |pairs| => pairs[i].0)
  }

  /** The `Rate` column of the frame built from the pairs. */
  function PairRates<R>(pairs: seq<(string, R)>): seq<R> {
    seq(|pairs|, i requires 0 <= i < |pairs| => pairs[i].1)
  }

  /** `df['Currency_Code'].map(currency_mapping)`. */
  function MapColumn(codes: seq<string>, mapping: map<string, string>): seq<Option<string>> {
    seq(|codes|, i requires 0 <= i < |codes| => Lookup(mapping, codes[i]))
  }

  /** A frame assembled from three equally long columns, row i taking the
      i-th cell of each. */
  function Zip3<R>(names: seq<Option<string>>, codes: seq<string>, rates: seq<R>): seq<Row<R>>
    requires |names| == |codes| == |rates|
  {
    seq(|codes|, i requires 0 <= i < |codes| => Row(names[i], codes[i], rates[i]))
  }

  /** The three columns of a dataset, as `to_list()` returns them. */
  function NameColumn<R>(df: seq<Row<R>>): seq<Option<string>> {
    seq(|df|, i requires 0 <= i < |df| => df[i].countryCurrency)
  }

  function CurrencyCodeColumn<R>(df: seq<Row<R>>): seq<string> {
    seq(|df|, i requires 0 <= i < |df| => df[i].currencyCode)
  }

  function RateValues<R>(df: seq<Row<R>>): seq<R> {
    seq(|df|, i requires 0 <= i < |df| => df[i].rate)
  }

  /** The frame of (code, rate) pairs with the mapped name column added and
      the columns put in the order (Country_Currency, Currency_Code, Rate). */
  function FrameOf<R>(pairs: seq<(string, R)>, mapping: map<string, string>): (df: seq<Row<R>>)
    ensures |df| == |pairs|
    ensures forall i :: 0 <= i < |pairs| ==> df[i].currencyCode == pairs[i].0 && df[i].rate == pairs[i].1
    ensures forall i :: 0 <= i < |pairs| ==> df[i].countryCurrency == Lookup(mapping, pairs[i].0)
  {
    var codes := PairCodes(pairs);
    Zip3(MapColumn(codes, mapping), codes, PairRates(pairs))
  }

  /** `transform_json_to_dataframe(data, currency_mapping)`. */
  function TransformJsonToDataframe<R>(payload: Payload<R>, mapping: map<string, string>): (r: Result<seq<Row<R>>, TransformError>)
    ensures r.Err? <==> payload.rates.NonObject?
    ensures payload.rates.Missing? ==> r == Ok([])
    ensures payload.rates.Object? ==> r.Ok? && |r.value| == |payload.rates.entries|
  {
    match RateItems(payload)
    case Ok(pairs) => Ok(FrameOf(pairs, mapping))
    case Err(e) => Err(e)
  }

  /** The row-by-row reading of the column-wise construction: row i is the
      i-th (code, rate) entry unchanged, preceded by the code's mapped name. */
  lemma FrameOfRowAt<R>(pairs: seq<(string, R)>, mapping: map<string, string>, i: int)
    requires 0 <= i < |pairs|
    ensures |FrameOf(pairs, mapping)| == |pairs|
    ensures FrameOf(pairs, mapping)[i] == Row(Lookup(mapping, pairs[i].0), pairs[i].0, pairs[i].1)
  {
  }

  /** One row per entry, in the entries' order, each carrying its entry's code
      and rate unchanged and the code's mapped name, or no name when the code
      is not a key of the mapping. */
  lemma TransformRows<R>(entries: seq<(string, R)>, mapping: map<string, string>)
    ensures var r := TransformJsonToDataframe(Payload(Object(entries)), mapping);
            && r.Ok?
            && |r.value| == |entries|
            && (forall i :: 0 <= i < |entries| ==>
                  && r.value[i].currencyCode == entries[i].0
                  && r.value[i].rate == entries[i].1
                  && (r.value[i].countryCurrency.Some? <==> entries[i].0 in mapping)
                  && (entries[i].0 in mapping ==> r.value[i].countryCurrency == Some(mapping[entries[i].0])))
  {
  }

  /** With distinct codes, every entry of `rates` has exactly one row with its
      code, and that row carries the entry's rate. */
  lemma ExactlyOneRowPerCode<R>(entries: seq<(string, R)>, mapping: map<string, string>, k: int)
    requires DistinctCodes(entries)
    requires 0 <= k < |entries|
    ensures var df := FrameOf(entries, mapping);
            && df[k].currencyCode == entries[k].0 && df[k].rate == entries[k].1
            && forall j :: 0 <= j < |df| && df[j].currencyCode == entries[k].0 ==> j == k
  {
  }

  /** Splitting a dataset into its three column lists and zipping them back
      by index gives the same rows. */
  lemma ColumnsRoundTrip<R>(df: seq<Row<R>>)
    ensures Zip3(NameColumn(df), CurrencyCodeColumn(df), RateValues(df)) == df
  {
  }

  /** Zipping three columns and splitting the result gives the columns back. */
  lemma ZipRoundTrip<R>(names: seq<Option<string>>, codes: seq<string>, rates: seq<R>)
    requires |names| == |codes| == |rates|
    ensures var df := Zip3(names, codes, rates);
            NameColumn(df) == names && CurrencyCodeColumn(df) == codes && RateValues(df) == rates
  {
  }

  /** The two-currency example: both codes mapped, order kept. */
  lemma TwoMappedCurrencies()
    ensures TransformJsonToDataframe(
              Payload(Object([("USD", 1.0), ("EUR", 0.92)])),
              map["USD" := "United States Dollar", "EUR" := "Euro"])
         == Ok([Row(Some("United States Dollar"), "USD", 1.0), Row(Some("Euro"), "EUR", 0.92)])
  {
    var entries := [("USD", 1.0), ("EUR", 0.92)];
    var mapping := map["USD" := "United States Dollar", "EUR" := "Euro"];
    assert "USD" in mapping && "EUR" in mapping;
    FrameOfRowAt(entries, mapping, 0);
    FrameOfRowAt(entries, mapping, 1);
    var df := FrameOf(entries, mapping);
    assert df == [df[0], df[1]];
  }

  /** An unmapped code gives a row without a name rather than an error. */
  lemma UnmappedCurrency()
    ensures TransformJsonToDataframe(Payload(Object([("XXX", 5.5)])), map["USD" := "United States Dollar"])
         == Ok([Row(None, "XXX", 5.5)])
  {
    var mapping := map["USD" := "United States Dollar"];
    assert "XXX"[0] != "USD"[0];
    assert "XXX" !in mapping;
    FrameOfRowAt([("XXX", 5.5)], mapping, 0);
    var df := FrameOf([("XXX", 5.5)], mapping);
    assert df == [df[0]];
  }
}
