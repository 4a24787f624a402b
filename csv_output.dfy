/** The CSV formatter: it turns the nested result tables of the metrics
    calculator into column tables, one list of cells per CSV column, keyed by
    the column header and ordered as the CSV rows will be. */
module CsvOutput {
  import opened Dicts

  /** A cell of a column: a class or method name, or a metric result. */
  datatype Cell<V> = Label(name: string) | Datum(value: V)

  const ClassHeader: string := "class"
  const MethodHeader: string := "method"

  /** The keys of `d` after `d[h] = ...` for each `h` in order: every header
      once, at its first occurrence. */
  ghost function FirstOccurrences(headers: seq<string>): seq<string> {
    if headers == [] then []
    else
      var init := FirstOccurrences(headers[..|headers| - 1]);
      var last := headers[|headers| - 1];
      if last in headers[..|headers| - 1] then init else init + [last]
  }

  lemma {:induction false} FirstOccurrencesMembers(headers: seq<string>)
    ensures forall h :: h in FirstOccurrences(headers) <==> h in headers
  {
    if headers != [] {
      var init := headers[..|headers| - 1];
      FirstOccurrencesMembers(init);
      assert headers == init + [headers[|headers| - 1]];
    }
  }

  /** Headers without repetitions keep their order. */
  lemma {:induction false} FirstOccurrencesDistinct(headers: seq<string>)
    requires Distinct(headers)
    ensures FirstOccurrences(headers) == headers
  {
    if headers != [] {
      var init := headers[..|headers| - 1];
      assert Distinct(init);
      FirstOccurrencesDistinct(init);
      assert headers == init + [headers[|headers| - 1]];
    }
  }

  /** The loop `for header in full_headers: formatted_dict[header] = list()`. */
  method InitColumns<V>(headers: seq<string>) returns (table: Dict<seq<Cell<V>>>)
    ensures table.Valid() && table.keys == FirstOccurrences(headers)
    ensures forall h :: h in table.entries <==> h in headers
    ensures forall h :: h in table.entries ==> table.entries[h] == []
  {
    table := Empty();
    var i := 0;
    while i < |headers|
      invariant 0 <= i <= |headers|
      invariant table.Valid() && table.keys == FirstOccurrences(headers[..i])
      invariant forall h :: h in table.entries <==> h in headers[..i]
      invariant forall h :: h in table.entries ==> table.entries[h] == []
    {
      assert headers[..i + 1][..i] == headers[..i];
      assert headers[..i + 1] == headers[..i] + [headers[i]];
      table := table.Put(headers[i], []);
      i := i + 1;
    }
    assert headers[..i] == headers;
  }

  /** Every key of `row` is one of the headers. */
  ghost predicate Listed<V>(row: Dict<V>, headers: seq<string>) {
    forall k :: k in row.entries ==> k in headers
  }

  // ----- class results -----

  /** A table of rows: every dictionary in it is well formed. */
  ghost predicate Rows<V>(data: Dict<Dict<V>>) {
    data.Valid() && forall k :: k in data.entries ==> data.entries[k].Valid()
  }

  /** `format_class_results` returns an empty dictionary: no classes, or a
      first class without results. */
  ghost predicate NoClassResults<V>(data: Dict<Dict<V>>)
    requires data.Valid()
  {
    |data.keys| == 0 || |data.entries[data.keys[0]].keys| == 0
  }

  /** `full_headers`: `'class'`, then the keys of the first row in order. */
  function ClassHeaders<V>(data: Dict<Dict<V>>): seq<string>
    requires data.Valid() && |data.keys| > 0
  {
    [ClassHeader] + data.entries[data.keys[0]].keys
  }

  /** `formatted_dict[h].append(cell)` for a column that exists. */
  function AppendCell<V>(table: Dict<seq<Cell<V>>>, h: string, cell: Cell<V>): (t: Dict<seq<Cell<V>>>)
    requires h in table.entries
    ensures table.Valid() ==> t.Valid()
    ensures t.keys == table.keys && t.entries.Keys == table.entries.Keys
    ensures forall x :: x in t.entries ==> t.entries[x] == table.entries[x] + (if x == h then [cell] else [])
  {
    table.Put(h, table.entries[h] + [cell])
  }

  /** The cell a result row adds to column `h`: its value under `h`, if any. */
  function ResultCells<V>(row: Dict<V>, h: string): seq<Cell<V>> {
    if h in row.entries then [Datum(row.entries[h])] else []
  }

  /** The cells a class adds to column `h`: its name for the class column,
      then its own result under `h`. */
  function ClassCells<V>(className: string, row: Dict<V>, h: string): seq<Cell<V>> {
    (if h == ClassHeader then [Label(className)] else []) + ResultCells(row, h)
  }

  /** The first `n` keys of `data` have entries. */
  ghost predicate Present<V>(data: Dict<V>, n: int) {
    0 <= n <= |data.keys| && forall i :: 0 <= i < n ==> data.keys[i] in data.entries
  }

  /** Column `h` after the first `n` classes. */
  ghost function ClassColumn<V>(data: Dict<Dict<V>>, n: nat, h: string): seq<Cell<V>>
    requires Present(data, n)
  {
    if n == 0 then []
    else ClassColumn(data, n - 1, h) + ClassCells(data.keys[n - 1], data.entries[data.keys[n - 1]], h)
  }

  /** The columns after the first `j` results of `row` have been appended to
      `start`; those results all had a column. */
  ghost predicate PartlyAppended<V>(current: Dict<seq<Cell<V>>>, start: Dict<seq<Cell<V>>>, row: Dict<V>, j: int)
    requires row.Valid() && 0 <= j <= |row.keys|
  {
    && current.Valid() && current.keys == start.keys
    && (forall h :: h in current.entries ==>
          && h in start.entries
          && current.entries[h] == start.entries[h] + (if h in row.keys[..j] then [Datum(row.entries[h])] else []))
    && forall q :: 0 <= q < j ==> row.keys[q] in start.entries
  }

  lemma AppendResultStep<V>(current: Dict<seq<Cell<V>>>, start: Dict<seq<Cell<V>>>, row: Dict<V>, j: int)
    requires row.Valid() && 0 <= j < |row.keys| && PartlyAppended(current, start, row, j)
    requires row.keys[j] in current.entries
    ensures PartlyAppended(AppendCell(current, row.keys[j], Datum(row.entries[row.keys[j]])), start, row, j + 1)
  {
    var k := row.keys[j];
    assert row.keys[..j + 1] == row.keys[..j] + [k];
    assert k !in row.keys[..j];
  }

  /** With every result appended, each column has gained exactly the cell
      the row adds to it. */
  lemma AppendResultsDone<V>(current: Dict<seq<Cell<V>>>, start: Dict<seq<Cell<V>>>, row: Dict<V>)
    requires row.Valid() && PartlyAppended(current, start, row, |row.keys|)
    ensures forall k :: k in row.entries ==> k in start.entries
    ensures forall h :: h in current.entries ==> current.entries[h] == start.entries[h] + ResultCells(row, h)
  {
    assert row.keys[..|row.keys|] == row.keys;
    forall k | k in row.entries
      ensures k in start.entries
    {
      var q :| 0 <= q < |row.keys| && row.keys[q] == k;
      assert row.keys[q] in start.entries;
    }
  }

  /** The innermost loop of both formatters: each result of a row, in key
      order, goes to the column of the same name; a result name that is not a
      column raises `KeyError`. The columns themselves stay as they were. */
  method AppendResults<V>(start: Dict<seq<Cell<V>>>, row: Dict<V>) returns (r: Result<Dict<seq<Cell<V>>>>)
    requires start.Valid() && row.Valid()
    ensures r.Success? <==> forall k :: k in row.entries ==> k in start.entries
    ensures r.Success? ==> r.value.Valid() && r.value.keys == start.keys
    ensures r.Success? ==> forall h :: h in r.value.entries ==> r.value.entries[h] == start.entries[h] + ResultCells(row, h)
  {
    var current := start;
    var j := 0;
    while j < |row.keys|
      invariant 0 <= j <= |row.keys|
      invariant PartlyAppended(current, start, row, j)
    {
      var resultName := row.keys[j];
      if resultName !in current.entries {
        return Failure("KeyError");
      }
      AppendResultStep(current, start, row, j);
      current := AppendCell(current, resultName, Datum(row.entries[resultName]));
      j := j + 1;
    }
    AppendResultsDone(current, start, row);
    return Success(current);
  }

  /** The columns after the first `i` classes, every one of them listed. */
  ghost predicate ColumnsAfter<V>(formatted: Dict<seq<Cell<V>>>, data: Dict<Dict<V>>, headers: seq<string>, i: int)
    requires Rows(data) && 0 <= i <= |data.keys|
  {
    && formatted.Valid() && formatted.keys == FirstOccurrences(headers)
    && (forall h :: h in formatted.entries <==> h in headers)
    && (forall h :: h in formatted.entries ==> formatted.entries[h] == ClassColumn(data, i, h))
    && forall p :: 0 <= p < i ==> Listed(data.entries[data.keys[p]], headers)
  }

  /** Appending a class's name and results extends every column by the cells
      that class adds. */
  lemma ClassColumnsStep<V>(formatted: Dict<seq<Cell<V>>>, next: Dict<seq<Cell<V>>>, data: Dict<Dict<V>>, i: int)
    requires data.Valid() && 0 <= i < |data.keys| && ClassHeader in formatted.entries
    requires forall h :: h in formatted.entries ==> formatted.entries[h] == ClassColumn(data, i, h)
    requires next.entries.Keys == formatted.entries.Keys
    requires forall h :: h in next.entries ==> next.entries[h] == AppendCell(formatted, ClassHeader, Label(data.keys[i])).entries[h] + ResultCells(data.entries[data.keys[i]], h)
    ensures forall h :: h in next.entries ==> next.entries[h] == ClassColumn(data, i + 1, h)
  {
    var className := data.keys[i];
    var row := data.entries[className];
    var labelled := AppendCell(formatted, ClassHeader, Label(className));
    forall h | h in next.entries
      ensures next.entries[h] == ClassColumn(data, i + 1, h)
    {
      ClassColumnStep(data, i, h, labelled.entries[h]);
    }
  }

  /** One column of `ClassColumnsStep`. */
  lemma ClassColumnStep<V>(data: Dict<Dict<V>>, i: int, h: string, labelledColumn: seq<Cell<V>>)
    requires data.Valid() && 0 <= i < |data.keys|
    requires labelledColumn == ClassColumn(data, i, h) + (if h == ClassHeader then [Label(data.keys[i])] else [])
    ensures labelledColumn + ResultCells(data.entries[data.keys[i]], h) == ClassColumn(data, i + 1, h)
  {
    var className := data.keys[i];
    var nameCells: seq<Cell<V>> := if h == ClassHeader then [Label(className)] else [];
    assert ClassCells(className, data.entries[className], h) == nameCells + ResultCells(data.entries[className], h);
  }

  lemma ColumnsStep<V>(formatted: Dict<seq<Cell<V>>>, next: Dict<seq<Cell<V>>>, data: Dict<Dict<V>>, headers: seq<string>, i: int)
    requires Rows(data) && 0 <= i < |data.keys| && ColumnsAfter(formatted, data, headers, i)
    requires ClassHeader in formatted.entries
    requires next.Valid() && next.keys == formatted.keys
    requires forall k :: k in data.entries[data.keys[i]].entries ==> k in formatted.entries
    requires forall h :: h in next.entries ==> next.entries[h] == AppendCell(formatted, ClassHeader, Label(data.keys[i])).entries[h] + ResultCells(data.entries[data.keys[i]], h)
    ensures ColumnsAfter(next, data, headers, i + 1)
  {
    var row := data.entries[data.keys[i]];
    assert Listed(row, headers) by {
      forall k | k in row.entries
        ensures k in headers
      {
        assert k in formatted.entries;
      }
    }
    assert next.entries.Keys == formatted.entries.Keys;
    ClassColumnsStep(formatted, next, data, i);
    assert forall p :: 0 <= p < i + 1 ==> Listed(data.entries[data.keys[p]], headers) by {
      forall p | 0 <= p < i + 1
        ensures Listed(data.entries[data.keys[p]], headers)
      {
        if p == i {
          assert data.keys[p] == data.keys[i];
        }
      }
    }
  }

  /** A row with a key that is not a column is not listed. */
  lemma NotListed<V>(formatted: Dict<seq<Cell<V>>>, data: Dict<Dict<V>>, headers: seq<string>, i: int)
    requires Rows(data) && 0 <= i < |data.keys| && ColumnsAfter(formatted, data, headers, i)
    requires !forall k :: k in data.entries[data.keys[i]].entries ==> k in formatted.entries
    ensures !forall k :: k in data.entries ==> Listed(data.entries[k], headers)
  {
    var row := data.entries[data.keys[i]];
    var k :| k in row.entries && k !in formatted.entries;
    assert !Listed(row, headers);
  }

  /** After the last class every row has been listed. */
  lemma ColumnsDone<V>(formatted: Dict<seq<Cell<V>>>, data: Dict<Dict<V>>, headers: seq<string>)
    requires Rows(data) && ColumnsAfter(formatted, data, headers, |data.keys|)
    ensures forall k :: k in data.entries ==> Listed(data.entries[k], headers)
  {
    forall k | k in data.entries
      ensures Listed(data.entries[k], headers)
    {
      var p :| 0 <= p < |data.keys| && data.keys[p] == k;
    }
  }

  /** `CSVOutput.format_class_results`. With no classes or an empty first row
      the result is an empty dictionary. Otherwise the columns are the headers
      in order, each holding, class by class, the cells that class adds; and
      a row key that is not a header raises `KeyError`, exactly when some row
      has one. */
  method FormatClassResults<V>(data: Dict<Dict<V>>) returns (r: Result<Dict<seq<Cell<V>>>>)
    requires Rows(data)
    ensures NoClassResults(data) ==> r == Success(Empty())
    ensures !NoClassResults(data) ==>
      (r.Success? <==> forall k :: k in data.entries ==> Listed(data.entries[k], ClassHeaders(data)))
    ensures !NoClassResults(data) && r.Success? ==>
      && r.value.Valid() && r.value.keys == FirstOccurrences(ClassHeaders(data))
      && forall h :: h in r.value.entries ==> r.value.entries[h] == ClassColumn(data, |data.keys|, h)
  {
    if |data.keys| == 0 || |data.entries[data.keys[0]].keys| == 0 {
      return Success(Empty());
    }
    var headers := [ClassHeader] + data.entries[data.keys[0]].keys;
    var formatted := InitColumns(headers);
    var i := 0;
    while i < |data.keys|
      invariant 0 <= i <= |data.keys| && ColumnsAfter(formatted, data, headers, i)
    {
      var className := data.keys[i];
      var row := data.entries[className];
      var labelled := AppendCell(formatted, ClassHeader, Label(className));
      var next := AppendResults(labelled, row);
      if next.Failure? {
        NotListed(formatted, data, headers, i);
        return next;
      }
      ColumnsStep(formatted, next.value, data, headers, i);
      formatted := next.value;
      i := i + 1;
    }
    ColumnsDone(formatted, data, headers);
    return Success(formatted);
  }

  /** Every row has the key set of the first row. */
  ghost predicate Uniform<V>(data: Dict<Dict<V>>)
    requires data.Valid() && 0 < |data.keys|
  {
    forall k, h :: k in data.entries ==> (h in data.entries[k].entries <==> h in data.entries[data.keys[0]].entries)
  }

  /** When the first `n` rows all have result `h` (and `h` is not `'class'`),
      column `h` holds one cell per class: cell `i` is class `i`'s value. */
  lemma {:induction false} MetricColumnTranspose<V>(data: Dict<Dict<V>>, n: nat, h: string)
    requires Present(data, n) && h != ClassHeader
    requires forall i :: 0 <= i < n ==> h in data.entries[data.keys[i]].entries
    ensures |ClassColumn(data, n, h)| == n
    ensures forall i :: 0 <= i < n ==> ClassColumn(data, n, h)[i] == Datum(data.entries[data.keys[i]].entries[h])
  {
    if n > 0 {
      MetricColumnTranspose(data, n - 1, h);
      var row := data.entries[data.keys[n - 1]];
      var prev := ClassColumn(data, n - 1, h);
      var cells := ClassCells(data.keys[n - 1], row, h);
      assert cells == [Datum(row.entries[h])];
      var column := prev + cells;
      assert ClassColumn(data, n, h) == column;
      forall i | 0 <= i < n
        ensures column[i] == Datum(data.entries[data.keys[i]].entries[h])
      {
        if i < n - 1 {
          assert column[i] == prev[i];
        } else {
          assert column[i] == cells[0];
        }
      }
    }
  }

  /** When none of the first `n` rows has a `'class'` result, the class column
      holds the first `n` class names in order. */
  lemma {:induction false} ClassNameColumn<V>(data: Dict<Dict<V>>, n: nat)
    requires Present(data, n)
    requires forall i :: 0 <= i < n ==> ClassHeader !in data.entries[data.keys[i]].entries
    ensures |ClassColumn(data, n, ClassHeader)| == n
    ensures forall i :: 0 <= i < n ==> ClassColumn(data, n, ClassHeader)[i] == Label(data.keys[i])
  {
    if n > 0 {
      ClassNameColumn(data, n - 1);
      var row := data.entries[data.keys[n - 1]];
      assert ClassCells(data.keys[n - 1], row, ClassHeader) == [Label(data.keys[n - 1])];
      var column := ClassColumn(data, n, ClassHeader);
      forall i | 0 <= i < n - 1
        ensures column[i] == Label(data.keys[i])
      {
        assert column[i] == ClassColumn(data, n - 1, ClassHeader)[i];
      }
    }
  }

  /** The table the source promises for uniform rows without a `'class'`
      result: the class column lists the class names in registry order, and
      the column of each metric lists that metric's values in the same order. */
  lemma UniformTranspose<V>(data: Dict<Dict<V>>)
    requires data.Valid() && 0 < |data.keys| && Uniform(data)
    requires ClassHeader !in data.entries[data.keys[0]].entries
    ensures |ClassColumn(data, |data.keys|, ClassHeader)| == |data.keys|
    ensures forall i :: 0 <= i < |data.keys| ==> ClassColumn(data, |data.keys|, ClassHeader)[i] == Label(data.keys[i])
    ensures forall h :: h in data.entries[data.keys[0]].entries ==> |ClassColumn(data, |data.keys|, h)| == |data.keys|
    ensures forall h, i :: h in data.entries[data.keys[0]].entries && 0 <= i < |data.keys| ==>
      ClassColumn(data, |data.keys|, h)[i] == Datum(data.entries[data.keys[i]].entries[h])
  {
    var n := |data.keys|;
    var first := data.entries[data.keys[0]];
    ClassNameColumn(data, n);
    forall h | h in first.entries
      ensures |ClassColumn(data, n, h)| == n
      ensures forall i :: 0 <= i < n ==> ClassColumn(data, n, h)[i] == Datum(data.entries[data.keys[i]].entries[h])
    {
      MetricColumnTranspose(data, n, h);
    }
  }

  /** Rows with the first row's keys are all listed, so formatting them never
      raises. */
  lemma UniformRowsListed<V>(data: Dict<Dict<V>>)
    requires Rows(data) && 0 < |data.keys| && Uniform(data)
    ensures forall k :: k in data.entries ==> Listed(data.entries[k], ClassHeaders(data))
  {
    var first := data.entries[data.keys[0]];
    var headers := ClassHeaders(data);
    assert headers[1..] == first.keys;
    assert forall h :: h in first.entries ==> h in headers by {
      forall h | h in first.entries
        ensures h in headers
      {
        assert h in first.keys;
        assert h in headers[1..];
      }
    }
    forall k, h | k in data.entries && h in data.entries[k].entries
      ensures h in headers
    {
      assert h in first.entries;
    }
  }

  // ----- method results -----

  /** A nested table of method results: class name, then method name, then
      result name; every dictionary in it is well formed. */
  ghost predicate MethodRows<V>(data: Dict<Dict<Dict<V>>>) {
    Rows(data) && forall k :: k in data.entries ==> Rows(data.entries[k])
  }

  /** `format_method_results` returns an empty dictionary: no classes, or a
      first class without methods. */
  ghost predicate NoMethodResults<V>(data: Dict<Dict<Dict<V>>>)
    requires data.Valid()
  {
    |data.keys| == 0 || |data.entries[data.keys[0]].keys| == 0
  }

  /** `'class'`, `'method'`, then the result names of the first method of the
      first class. */
  ghost function MethodHeaders<V>(data: Dict<Dict<Dict<V>>>): seq<string>
    requires MethodRows(data) && !NoMethodResults(data)
  {
    var first := data.entries[data.keys[0]];
    [ClassHeader, MethodHeader] + first.entries[first.keys[0]].keys
  }

  /** One row of the method table: a method of a class and its results. */
  datatype MethodLine<V> = MethodLine(className: string, methodName: string, results: Dict<V>)

  /** The lines of one class, in method order. */
  ghost function ClassLines<V>(className: string, methods: Dict<Dict<V>>): seq<MethodLine<V>>
    requires methods.Valid()
  {
    seq(|methods.keys|, j requires 0 <= j < |methods.keys| => MethodLine(className, methods.keys[j], methods.entries[methods.keys[j]]))
  }

  /** The lines of the first `n` classes, class by class. */
  ghost function Lines<V>(data: Dict<Dict<Dict<V>>>, n: nat): seq<MethodLine<V>>
    requires Rows(data) && n <= |data.keys|
  {
    if n == 0 then []
    else Lines(data, n - 1) + ClassLines(data.keys[n - 1], data.entries[data.keys[n - 1]])
  }

  /** The cells a line adds to column `h`: the class name to `'class'`, the
      method name to `'method'`, and its result under `h`, if any. */
  function MethodCells<V>(line: MethodLine<V>, h: string): seq<Cell<V>> {
    (if h == ClassHeader then [Label(line.className)] else [])
    + (if h == MethodHeader then [Label(line.methodName)] else [])
    + ResultCells(line.results, h)
  }

  /** Column `h` after the given lines, in order. */
  ghost function LinesColumn<V>(lines: seq<MethodLine<V>>, h: string): seq<Cell<V>> {
    if lines == [] then []
    else LinesColumn(lines[..|lines| - 1], h) + MethodCells(lines[|lines| - 1], h)
  }

  lemma LinesColumnStep<V>(lines: seq<MethodLine<V>>, line: MethodLine<V>, h: string)
    ensures LinesColumn(lines + [line], h) == LinesColumn(lines, h) + MethodCells(line, h)
  {
    assert (lines + [line])[..|lines|] == lines;
  }

  /** The column of consecutive runs of lines is the concatenation of their
      columns. */
  lemma {:induction false} LinesColumnConcat<V>(a: seq<MethodLine<V>>, b: seq<MethodLine<V>>, h: string)
    ensures LinesColumn(a + b, h) == LinesColumn(a, h) + LinesColumn(b, h)
    decreases |b|
  {
    if b == [] {
      assert a + b == a;
    } else {
      var init, last := b[..|b| - 1], b[|b| - 1];
      assert a + b == (a + init) + [last];
      assert b == init + [last];
      calc {
        LinesColumn(a + b, h);
        LinesColumn((a + init) + [last], h);
        { LinesColumnStep(a + init, last, h); }
        LinesColumn(a + init, h) + MethodCells(last, h);
        { LinesColumnConcat(a, init, h); }
        LinesColumn(a, h) + (LinesColumn(init, h) + MethodCells(last, h));
        { LinesColumnStep(init, last, h); }
        LinesColumn(a, h) + LinesColumn(init + [last], h);
      }
    }
  }

  /** Every result name of `row` is a column of `table`. */
  ghost predicate Fits<V>(row: Dict<V>, table: Dict<seq<Cell<V>>>) {
    forall k :: k in row.entries ==> k in table.entries
  }

  /** Every method row of a class is listed. */
  ghost predicate MethodsListed<V>(methods: Dict<Dict<V>>, headers: seq<string>) {
    forall m :: m in methods.entries ==> Listed(methods.entries[m], headers)
  }

  /** The columns after appending the lines of the first `j` methods of a
      class to `start`; those methods' results all had a column. */
  ghost predicate MethodsAppended<V>(current: Dict<seq<Cell<V>>>, start: Dict<seq<Cell<V>>>, className: string, methods: Dict<Dict<V>>, j: int)
    requires methods.Valid() && 0 <= j <= |methods.keys|
  {
    && current.Valid() && current.keys == start.keys && current.entries.Keys == start.entries.Keys
    && (forall h :: h in current.entries ==> current.entries[h] == start.entries[h] + LinesColumn(ClassLines(className, methods)[..j], h))
    && forall q :: 0 <= q < j ==> Fits(methods.entries[methods.keys[q]], start)
  }

  lemma PrefixStep<T>(s: seq<T>, j: int)
    requires 0 <= j < |s|
    ensures s[..j + 1] == s[..j] + [s[j]]
  {
  }

  /** The body of the middle loop of `format_method_results` for one method:
      the class name goes to `'class'`, the method name to `'method'` and each
      result to the column of the same name; a result name that is not a
      column raises `KeyError`. */
  method AppendLine<V>(current: Dict<seq<Cell<V>>>, line: MethodLine<V>) returns (r: Result<Dict<seq<Cell<V>>>>)
    requires current.Valid() && line.results.Valid()
    requires ClassHeader in current.entries && MethodHeader in current.entries
    ensures r.Success? <==> Fits(line.results, current)
    ensures r.Success? ==> r.value.Valid() && r.value.keys == current.keys && r.value.entries.Keys == current.entries.Keys
    ensures r.Success? ==> forall h :: h in r.value.entries ==> r.value.entries[h] == current.entries[h] + MethodCells(line, h)
  {
    var withClass := AppendCell(current, ClassHeader, Label(line.className));
    var withMethod := AppendCell(withClass, MethodHeader, Label(line.methodName));
    r := AppendResults(withMethod, line.results);
    if r.Success? {
      forall h | h in r.value.entries
        ensures r.value.entries[h] == current.entries[h] + MethodCells(line, h)
      {
        LineCells(current.entries[h], withMethod.entries[h], r.value.entries[h], line, h);
      }
    }
  }

  /** One column of `AppendLine`. */
  lemma LineCells<V>(currentColumn: seq<Cell<V>>, withMethodColumn: seq<Cell<V>>, nextColumn: seq<Cell<V>>, line: MethodLine<V>, h: string)
    requires withMethodColumn == currentColumn
      + (if h == ClassHeader then [Label(line.className)] else [])
      + (if h == MethodHeader then [Label(line.methodName)] else [])
    requires nextColumn == withMethodColumn + ResultCells(line.results, h)
    ensures nextColumn == currentColumn + MethodCells(line, h)
  {
  }

  /** Appending one more line of the class. */
  lemma MethodAppendedStep<V>(current: Dict<seq<Cell<V>>>, next: Dict<seq<Cell<V>>>, start: Dict<seq<Cell<V>>>, className: string, methods: Dict<Dict<V>>, j: int)
    requires methods.Valid() && 0 <= j < |methods.keys| && MethodsAppended(current, start, className, methods, j)
    requires next.Valid() && next.keys == current.keys && next.entries.Keys == current.entries.Keys
    requires Fits(methods.entries[methods.keys[j]], current)
    requires forall h :: h in next.entries ==> next.entries[h] == current.entries[h] + MethodCells(ClassLines(className, methods)[j], h)
    ensures MethodsAppended(next, start, className, methods, j + 1)
  {
    var lines := ClassLines(className, methods);
    PrefixStep(lines, j);
    forall h | h in next.entries
      ensures next.entries[h] == start.entries[h] + LinesColumn(lines[..j + 1], h)
    {
      AppendedColumn(start.entries[h], current.entries[h], next.entries[h], lines[..j], lines[j], h);
    }
  }

  /** One column of `MethodAppendedStep`. */
  lemma AppendedColumn<V>(startColumn: seq<Cell<V>>, currentColumn: seq<Cell<V>>, nextColumn: seq<Cell<V>>, lines: seq<MethodLine<V>>, line: MethodLine<V>, h: string)
    requires currentColumn == startColumn + LinesColumn(lines, h)
    requires nextColumn == currentColumn + MethodCells(line, h)
    ensures nextColumn == startColumn + LinesColumn(lines + [line], h)
  {
    LinesColumnStep(lines, line, h);
  }

  /** The middle loop of `format_method_results` for one class: its lines,
      method by method; a result name that is not a column raises `KeyError`. */
  method AppendClassMethods<V>(start: Dict<seq<Cell<V>>>, className: string, methods: Dict<Dict<V>>) returns (r: Result<Dict<seq<Cell<V>>>>)
    requires start.Valid() && Rows(methods)
    requires ClassHeader in start.entries && MethodHeader in start.entries
    ensures r.Success? <==> forall m :: m in methods.entries ==> Fits(methods.entries[m], start)
    ensures r.Success? ==> r.value.Valid() && r.value.keys == start.keys && r.value.entries.Keys == start.entries.Keys
    ensures r.Success? ==> forall h :: h in r.value.entries ==>
      r.value.entries[h] == start.entries[h] + LinesColumn(ClassLines(className, methods), h)
  {
    var current := start;
    var j := 0;
    assert ClassLines(className, methods)[..0] == [];
    while j < |methods.keys|
      invariant 0 <= j <= |methods.keys|
      invariant MethodsAppended(current, start, className, methods, j)
    {
      var methodName := methods.keys[j];
      var line := MethodLine(className, methodName, methods.entries[methodName]);
      assert line == ClassLines(className, methods)[j];
      var next := AppendLine(current, line);
      if next.Failure? {
        return next;
      }
      MethodAppendedStep(current, next.value, start, className, methods, j);
      current := next.value;
      j := j + 1;
    }
    assert ClassLines(className, methods)[..j] == ClassLines(className, methods);
    forall m | m in methods.entries
      ensures Fits(methods.entries[m], start)
    {
      var q :| 0 <= q < |methods.keys| && methods.keys[q] == m;
    }
    return Success(current);
  }

  /** The columns after the first `i` classes, all their methods listed. */
  ghost predicate MethodColumnsAfter<V>(formatted: Dict<seq<Cell<V>>>, data: Dict<Dict<Dict<V>>>, headers: seq<string>, i: int)
    requires Rows(data) && 0 <= i <= |data.keys|
  {
    && formatted.Valid() && formatted.keys == FirstOccurrences(headers)
    && (forall h :: h in formatted.entries <==> h in headers)
    && (forall h :: h in formatted.entries ==> formatted.entries[h] == LinesColumn(Lines(data, i), h))
    && forall p :: 0 <= p < i ==> MethodsListed(data.entries[data.keys[p]], headers)
  }

  lemma MethodColumnsStep<V>(formatted: Dict<seq<Cell<V>>>, next: Dict<seq<Cell<V>>>, data: Dict<Dict<Dict<V>>>, headers: seq<string>, i: int)
    requires MethodRows(data) && 0 <= i < |data.keys| && MethodColumnsAfter(formatted, data, headers, i)
    requires next.Valid() && next.keys == formatted.keys && next.entries.Keys == formatted.entries.Keys
    requires forall m :: m in data.entries[data.keys[i]].entries ==> Fits(data.entries[data.keys[i]].entries[m], formatted)
    requires forall h :: h in next.entries ==>
      next.entries[h] == formatted.entries[h] + LinesColumn(ClassLines(data.keys[i], data.entries[data.keys[i]]), h)
    ensures MethodColumnsAfter(next, data, headers, i + 1)
  {
    var methods := data.entries[data.keys[i]];
    assert MethodsListed(methods, headers) by {
      forall m, k | m in methods.entries && k in methods.entries[m].entries
        ensures k in headers
      {
        assert k in formatted.entries;
      }
    }
    forall h | h in next.entries
      ensures next.entries[h] == LinesColumn(Lines(data, i + 1), h)
    {
      LinesColumnConcat(Lines(data, i), ClassLines(data.keys[i], methods), h);
    }
    assert forall p :: 0 <= p < i + 1 ==> MethodsListed(data.entries[data.keys[p]], headers) by {
      forall p | 0 <= p < i + 1
        ensures MethodsListed(data.entries[data.keys[p]], headers)
      {
        if p == i {
          assert data.keys[p] == data.keys[i];
        }
      }
    }
  }

  /** A method row with a key that is not a column is not listed. */
  lemma MethodsNotListed<V>(formatted: Dict<seq<Cell<V>>>, data: Dict<Dict<Dict<V>>>, headers: seq<string>, i: int)
    requires MethodRows(data) && 0 <= i < |data.keys| && MethodColumnsAfter(formatted, data, headers, i)
    requires !forall m :: m in data.entries[data.keys[i]].entries ==> Fits(data.entries[data.keys[i]].entries[m], formatted)
    ensures !forall k :: k in data.entries ==> MethodsListed(data.entries[k], headers)
  {
    var methods := data.entries[data.keys[i]];
    var m :| m in methods.entries && !Fits(methods.entries[m], formatted);
    var k :| k in methods.entries[m].entries && k !in formatted.entries;
    assert !Listed(methods.entries[m], headers);
  }

  /** After the last class every method row has been listed. */
  lemma MethodColumnsDone<V>(formatted: Dict<seq<Cell<V>>>, data: Dict<Dict<Dict<V>>>, headers: seq<string>)
    requires Rows(data) && MethodColumnsAfter(formatted, data, headers, |data.keys|)
    ensures forall k :: k in data.entries ==> MethodsListed(data.entries[k], headers)
  {
    forall k | k in data.entries
      ensures MethodsListed(data.entries[k], headers)
    {
      var p :| 0 <= p < |data.keys| && data.keys[p] == k;
    }
  }

  /** `CSVOutput.format_method_results`. With no classes or a first class
      without methods the result is an empty dictionary. Otherwise the columns
      are the headers in order, each holding, line by line (class by class,
      method by method), the cells that line adds; and a result name that is
      not a header raises `KeyError`, exactly when some method row has one. */
  method FormatMethodResults<V>(data: Dict<Dict<Dict<V>>>) returns (r: Result<Dict<seq<Cell<V>>>>)
    requires MethodRows(data)
    ensures NoMethodResults(data) ==> r == Success(Empty())
    ensures !NoMethodResults(data) ==>
      (r.Success? <==> forall k :: k in data.entries ==> MethodsListed(data.entries[k], MethodHeaders(data)))
    ensures !NoMethodResults(data) && r.Success? ==>
      && r.value.Valid() && r.value.keys == FirstOccurrences(MethodHeaders(data))
      && forall h :: h in r.value.entries ==> r.value.entries[h] == LinesColumn(Lines(data, |data.keys|), h)
  {
    if |data.keys| == 0 || |data.entries[data.keys[0]].keys| == 0 {
      return Success(Empty());
    }
    var first := data.entries[data.keys[0]];
    var headers := [ClassHeader, MethodHeader] + first.entries[first.keys[0]].keys;
    var formatted := InitColumns(headers);
    var i := 0;
    while i < |data.keys|
      invariant 0 <= i <= |data.keys| && MethodColumnsAfter(formatted, data, headers, i)
    {
      var className := data.keys[i];
      assert ClassHeader in formatted.entries && MethodHeader in formatted.entries;
      var next := AppendClassMethods(formatted, className, data.entries[className]);
      if next.Failure? {
        MethodsNotListed(formatted, data, headers, i);
        return next;
      }
      MethodColumnsStep(formatted, next.value, data, headers, i);
      formatted := next.value;
      i := i + 1;
    }
    MethodColumnsDone(formatted, data, headers);
    return Success(formatted);
  }

  /** Every line comes from the table: a method of a listed class, with that
      method's results. */
  lemma {:induction false} LinesFromTable<V>(data: Dict<Dict<Dict<V>>>, n: nat)
    requires Rows(data) && n <= |data.keys|
    ensures forall line :: line in Lines(data, n) ==>
      && line.className in data.entries
      && line.methodName in data.entries[line.className].entries
      && line.results == data.entries[line.className].entries[line.methodName]
  {
    if n > 0 {
      LinesFromTable(data, n - 1);
      var className := data.keys[n - 1];
      var methods := data.entries[className];
      forall line | line in ClassLines(className, methods)
        ensures line.className == className && line.methodName in methods.entries && line.results == methods.entries[line.methodName]
      {
        var j :| 0 <= j < |methods.keys| && ClassLines(className, methods)[j] == line;
      }
    }
  }

  /** Every method of the first `n` classes has its line. */
  lemma {:induction false} TableInLines<V>(data: Dict<Dict<Dict<V>>>, n: nat)
    requires Rows(data) && n <= |data.keys|
    ensures forall p, m :: 0 <= p < n && m in data.entries[data.keys[p]].entries ==>
      MethodLine(data.keys[p], m, data.entries[data.keys[p]].entries[m]) in Lines(data, n)
  {
    if n > 0 {
      TableInLines(data, n - 1);
      var className := data.keys[n - 1];
      var methods := data.entries[className];
      forall p, m | 0 <= p < n && m in data.entries[data.keys[p]].entries
        ensures MethodLine(data.keys[p], m, data.entries[data.keys[p]].entries[m]) in Lines(data, n)
      {
        if p == n - 1 {
          var j :| 0 <= j < |methods.keys| && methods.keys[j] == m;
          assert ClassLines(className, methods)[j] == MethodLine(data.keys[p], m, data.entries[data.keys[p]].entries[m]);
        }
      }
    }
  }

  /** When every line has result `h` (and `h` is neither `'class'` nor
      `'method'`), column `h` holds one cell per line: that line's value. */
  lemma {:induction false} LinesTranspose<V>(lines: seq<MethodLine<V>>, h: string)
    requires h != ClassHeader && h != MethodHeader
    requires forall t :: 0 <= t < |lines| ==> h in lines[t].results.entries
    ensures |LinesColumn(lines, h)| == |lines|
    ensures forall t :: 0 <= t < |lines| ==> LinesColumn(lines, h)[t] == Datum(lines[t].results.entries[h])
  {
    if lines != [] {
      var init := lines[..|lines| - 1];
      LinesTranspose(init, h);
      var prev := LinesColumn(init, h);
      var cells := MethodCells(lines[|lines| - 1], h);
      assert cells == [Datum(lines[|lines| - 1].results.entries[h])];
      var column := prev + cells;
      assert LinesColumn(lines, h) == column;
      forall t | 0 <= t < |lines|
        ensures column[t] == Datum(lines[t].results.entries[h])
      {
        if t < |lines| - 1 {
          assert column[t] == prev[t] && lines[t] == init[t];
        } else {
          assert column[t] == cells[0];
        }
      }
    }
  }

  /** When no line has a `'class'` or `'method'` result, those two columns
      hold each line's class name and method name. */
  lemma {:induction false} LinesNameColumns<V>(lines: seq<MethodLine<V>>)
    requires forall t :: 0 <= t < |lines| ==> ClassHeader !in lines[t].results.entries && MethodHeader !in lines[t].results.entries
    ensures |LinesColumn(lines, ClassHeader)| == |LinesColumn(lines, MethodHeader)| == |lines|
    ensures forall t :: 0 <= t < |lines| ==> LinesColumn(lines, ClassHeader)[t] == Label(lines[t].className)
    ensures forall t :: 0 <= t < |lines| ==> LinesColumn(lines, MethodHeader)[t] == Label(lines[t].methodName)
  {
    if lines != [] {
      var init := lines[..|lines| - 1];
      var last := lines[|lines| - 1];
      LinesNameColumns(init);
      assert MethodCells(last, ClassHeader) == [Label(last.className)];
      assert MethodCells(last, MethodHeader) == [Label(last.methodName)];
      var classColumn := LinesColumn(init, ClassHeader) + [Label(last.className)];
      var methodColumn := LinesColumn(init, MethodHeader) + [Label(last.methodName)];
      assert LinesColumn(lines, ClassHeader) == classColumn;
      assert LinesColumn(lines, MethodHeader) == methodColumn;
      forall t | 0 <= t < |lines| - 1
        ensures classColumn[t] == Label(lines[t].className) && methodColumn[t] == Label(lines[t].methodName)
      {
        assert lines[t] == init[t];
      }
    }
  }
}
