/** The Operational Analytics page: the text `downloadCSV` builds and the rows the Export CSV
    button hands it. The JSON encoder is a parameter: `encode(v)` is `JSON.stringify(v)`. */
module AnalyticsPage {
  import opened Wrappers
  import opened Text
  import opened Js

  /** The keys of `keys` whose value in `row` is not of type object (which drops nulls,
      arrays and nested objects), in order. */
  function HeaderKeys(row: seq<Property>, keys: seq<string>): (r: seq<string>)
    ensures |r| <= |keys|
    ensures forall k :: k in r <==> k in keys && !IsTypeofObject(Lookup(row, k))
  {
    if keys == [] then []
    else if !IsTypeofObject(Lookup(row, keys[0])) then [keys[0]] + HeaderKeys(row, keys[1..])
    else HeaderKeys(row, keys[1..])
  }

  /** The header of the CSV, read from the first row only. */
  function Headers(first: seq<Property>): (r: seq<string>)
    ensures forall k :: k in r <==>
      (exists i :: 0 <= i < |first| && first[i].key == k) && !IsTypeofObject(Lookup(first, k))
  {
    var keys := Keys(first);
    assert forall k :: k in keys <==> exists i :: 0 <= i < |first| && first[i].key == k;
    HeaderKeys(first, keys)
  }

  /** `HeaderKeys` keeps the order of `keys`: filtering a concatenation is concatenating the
      filtered halves. */
  lemma {:induction false} HeaderKeysAppend(row: seq<Property>, a: seq<string>, b: seq<string>)
    ensures HeaderKeys(row, a + b) == HeaderKeys(row, a) + HeaderKeys(row, b)
    decreases |a|
  {
    if a == [] {
      assert a + b == b;
    } else {
      assert (a + b)[0] == a[0] && (a + b)[1..] == a[1..] + b;
      HeaderKeysAppend(row, a[1..], b);
    }
  }

  /** A single key is kept exactly when its value is not of type object. */
  lemma HeaderKeysOne(row: seq<Property>, k: string)
    ensures HeaderKeys(row, [k]) == if IsTypeofObject(Lookup(row, k)) then [] else [k]
  {
    assert [k][1..] == [];
  }

  /** No element occurs twice. */
  predicate NoRepeats(s: seq<string>) {
    forall i, j :: 0 <= i < j < |s| ==> s[i] != s[j]
  }

  /** Distinct keys give distinct headers: no column is repeated. */
  lemma {:induction false} HeaderKeysDistinct(row: seq<Property>, keys: seq<string>)
    requires NoRepeats(keys)
    ensures NoRepeats(HeaderKeys(row, keys))
    decreases |keys|
  {
    if keys != [] {
      var tail := keys[1..];
      assert NoRepeats(tail) by {
        forall i, j | 0 <= i < j < |tail| ensures tail[i] != tail[j] {
          assert tail[i] == keys[i + 1] && tail[j] == keys[j + 1];
        }
      }
      HeaderKeysDistinct(row, tail);
      assert keys[0] !in tail by {
        forall i | 0 <= i < |tail| ensures tail[i] != keys[0] {
          assert tail[i] == keys[i + 1];
        }
      }
      var rest := HeaderKeys(row, tail);
      if !IsTypeofObject(Lookup(row, keys[0])) {
        var r := [keys[0]] + rest;
        forall i, j | 0 <= i < j < |r| ensures r[i] != r[j] {
          assert r[j] == rest[j - 1] && r[j] in rest;
          assert r[j] in tail;
          if i > 0 {
            assert r[i] == rest[i - 1];
          }
        }
        assert NoRepeats(r);
      }
    }
  }

  /** The header of an object has each of its keys at most once. */
  lemma HeadersDistinct(first: seq<Property>)
    requires DistinctKeys(first)
    ensures NoRepeats(Headers(first))
  {
    var keys := Keys(first);
    assert NoRepeats(keys) by {
      forall i, j | 0 <= i < j < |keys| ensures keys[i] != keys[j] {
        assert keys[i] == first[i].key && keys[j] == first[j].key;
      }
    }
    HeaderKeysDistinct(first, keys);
  }

  /** The encoded values of a row for the given headers: a null or absent value is encoded
      as the empty string. */
  function Fields(row: seq<Property>, headers: seq<string>, encode: JsValue -> string): (r: seq<string>)
    ensures |r| == |headers|
    ensures forall i :: 0 <= i < |headers| ==>
      r[i] == encode(OrElse(Lookup(row, headers[i]), Str("")))
  {
    if headers == [] then []
    else [encode(OrElse(Lookup(row, headers[0]), Str("")))] + Fields(row, headers[1..], encode)
  }

  /** One comma-joined line per row, in order. */
  function DataLines(rows: seq<seq<Property>>, headers: seq<string>, encode: JsValue -> string): (r: seq<string>)
    ensures |r| == |rows|
    ensures forall i :: 0 <= i < |rows| ==> r[i] == Join(Fields(rows[i], headers, encode), ',')
  {
    if rows == [] then []
    else [Join(Fields(rows[0], headers, encode), ',')] + DataLines(rows[1..], headers, encode)
  }

  /** `downloadCSV`'s text: nothing for missing or empty data; otherwise the raw header names
      joined by commas, then one line per row, all joined by newlines. */
  function Csv(data: Option<seq<seq<Property>>>, encode: JsValue -> string): (r: Option<string>)
    ensures r.None? <==> data.None? || data.value == []
  {
    if data.None? || data.value == [] then None
    else
      var headers := Headers(data.value[0]);
      Some(Join([Join(headers, ',')] + DataLines(data.value, headers, encode), '\n'))
  }

  /** The header line holds no newline when no key of the first row does. */
  lemma HeaderLineHasNoNewline(first: seq<Property>)
    requires forall k :: 0 <= k < |first| ==> '\n' !in first[k].key
    ensures '\n' !in Join(Headers(first), ',')
  {
    var headers := Headers(first);
    forall k | 0 <= k < |headers|
      ensures '\n' !in headers[k]
    {
      assert headers[k] in headers;
    }
    JoinAvoids(headers, ',', '\n');
  }

  /** No data line holds a newline when no encoded value does. */
  lemma DataLinesHaveNoNewline(rows: seq<seq<Property>>, headers: seq<string>, encode: JsValue -> string)
    requires forall v :: '\n' !in encode(v)
    ensures forall i :: 0 <= i < |rows| ==> '\n' !in DataLines(rows, headers, encode)[i]
  {
    var body := DataLines(rows, headers, encode);
    forall i | 0 <= i < |rows|
      ensures '\n' !in body[i]
    {
      JoinAvoids(Fields(rows[i], headers, encode), ',', '\n');
    }
  }

  /** A value JSON-encoded without a newline, and a header without one, keep the CSV's lines
      apart: splitting at newlines gives the header line and then exactly one line per row,
      each holding that row's fields for the first row's headers. */
  lemma CsvLines(data: seq<seq<Property>>, encode: JsValue -> string)
    requires data != []
    requires forall k :: 0 <= k < |data[0]| ==> '\n' !in data[0][k].key
    requires forall v :: '\n' !in encode(v)
    ensures var lines := Split(Csv(Some(data), encode).value, '\n');
      && |lines| == |data| + 1
      && lines[0] == Join(Headers(data[0]), ',')
      && forall i :: 0 <= i < |data| ==> lines[i + 1] == Join(Fields(data[i], Headers(data[0]), encode), ',')
  {
    var headers := Headers(data[0]);
    var body := DataLines(data, headers, encode);
    var all := [Join(headers, ',')] + body;
    HeaderLineHasNoNewline(data[0]);
    DataLinesHaveNoNewline(data, headers, encode);
    assert forall k :: 1 <= k < |all| ==> all[k] == body[k - 1];
    SplitJoin(all, '\n');
  }

  /** A data line splits back into exactly one field per header when none of that row's
      encoded values holds a comma (and there is at least one header). `JSON.stringify` does
      put commas in arrays and in strings such as "a,b"; such a row's line has more fields. */
  lemma LineFields(row: seq<Property>, headers: seq<string>, encode: JsValue -> string)
    requires headers != []
    requires forall i :: 0 <= i < |Fields(row, headers, encode)| ==> ',' !in Fields(row, headers, encode)[i]
    ensures Split(Join(Fields(row, headers, encode), ','), ',') == Fields(row, headers, encode)
    ensures |Split(Join(Fields(row, headers, encode), ','), ',')| == |headers|
  {
    SplitJoin(Fields(row, headers, encode), ',');
  }

  /** An entry of the reports' `topCostVehicles`, reduced to the fields exported. */
  datatype CostVehicle = CostVehicle(name: JsValue, licensePlate: JsValue, totalOperational: JsValue)

  /** The row the button builds for an entry: `{ name, license_plate, total_operational }`,
      in that key order. */
  function ExportRow(v: CostVehicle): (row: seq<Property>)
    ensures Keys(row) == ["name", "license_plate", "total_operational"]
    ensures Lookup(row, "name") == v.name
    ensures Lookup(row, "license_plate") == v.licensePlate
    ensures Lookup(row, "total_operational") == v.totalOperational
  {
    var row := [Property("name", v.name), Property("license_plate", v.licensePlate), Property("total_operational", v.totalOperational)];
    assert row[1..] == [row[1], row[2]] && row[1..][1..] == [row[2]];
    row
  }

  function ExportRows(vs: seq<CostVehicle>): (rows: seq<seq<Property>>)
    ensures |rows| == |vs|
    ensures forall i :: 0 <= i < |vs| ==> rows[i] == ExportRow(vs[i])
  {
    if vs == [] then [] else [ExportRow(vs[0])] + ExportRows(vs[1..])
  }

  /** What the Export CSV button does. */
  datatype ExportOutcome = NoDataToExport | Download(csv: string, filename: string)

  /** `reports?.topCostVehicles || []`: `None` when the reports or the field are missing. */
  function TopCost(topCostVehicles: Option<seq<CostVehicle>>): (r: seq<CostVehicle>)
    ensures topCostVehicles.None? ==> r == []
    ensures topCostVehicles.Some? ==> r == topCostVehicles.value
  {
    if topCostVehicles.Some? then topCostVehicles.value else []
  }

  /** Export CSV: refused when the list is empty, otherwise the projected rows are
      downloaded as `fleetflow-costs.csv`. */
  function Export(topCost: seq<CostVehicle>, encode: JsValue -> string): (r: ExportOutcome)
    ensures r.NoDataToExport? <==> topCost == []
    ensures r.Download? ==>
      r.filename == "fleetflow-costs.csv" && Some(r.csv) == Csv(Some(ExportRows(topCost)), encode)
  {
    if topCost == [] then NoDataToExport
    else Download(Csv(Some(ExportRows(topCost)), encode).value, "fleetflow-costs.csv")
  }

  /** The export's header keeps each of the three columns exactly when the first entry's value
      for it is not of type object: a null `total_operational` in the first entry drops that
      column for every row. */
  lemma ExportHeaders(vs: seq<CostVehicle>)
    requires vs != []
    ensures var h := Headers(ExportRows(vs)[0]);
      && ("name" in h <==> !IsTypeofObject(vs[0].name))
      && ("license_plate" in h <==> !IsTypeofObject(vs[0].licensePlate))
      && ("total_operational" in h <==> !IsTypeofObject(vs[0].totalOperational))
      && |h| <= 3
  {
    var row := ExportRows(vs)[0];
    assert row == ExportRow(vs[0]);
    assert row[0].key == "name" && row[1].key == "license_plate" && row[2].key == "total_operational";
  }

  /** The export's header lists the surviving columns in the order name, license_plate,
      total_operational. */
  lemma ExportHeaderOrder(vs: seq<CostVehicle>)
    requires vs != []
    ensures Headers(ExportRows(vs)[0]) ==
      (if IsTypeofObject(vs[0].name) then [] else ["name"])
      + (if IsTypeofObject(vs[0].licensePlate) then [] else ["license_plate"])
      + (if IsTypeofObject(vs[0].totalOperational) then [] else ["total_operational"])
  {
    var row := ExportRows(vs)[0];
    assert row == ExportRow(vs[0]);
    var keys := Keys(row);
    assert keys == ["name"] + ["license_plate"] + ["total_operational"];
    HeaderKeysAppend(row, ["name"] + ["license_plate"], ["total_operational"]);
    HeaderKeysAppend(row, ["name"], ["license_plate"]);
    HeaderKeysOne(row, "name");
    HeaderKeysOne(row, "license_plate");
    HeaderKeysOne(row, "total_operational");
  }

  /** A missing reports object or a missing `topCostVehicles` list makes Export CSV refuse,
      and so does an empty list; any non-empty list is downloaded. */
  lemma MissingTopCostRefusesExport(topCostVehicles: Option<seq<CostVehicle>>, encode: JsValue -> string)
    ensures Export(TopCost(topCostVehicles), encode).NoDataToExport? <==>
      topCostVehicles.None? || topCostVehicles.value == []
  {
  }

  /** With header names and encoded values free of newlines, an export of `n` entries has
      `n + 1` lines. */
  lemma ExportLineCount(vs: seq<CostVehicle>, encode: JsValue -> string)
    requires vs != []
    requires forall v :: '\n' !in encode(v)
    ensures |Split(Export(vs, encode).csv, '\n')| == |vs| + 1
  {
    var rows := ExportRows(vs);
    assert rows[0] == ExportRow(vs[0]);
    CsvLines(rows, encode);
  }
}
