/**
 * Building the translation table from the rows the CSV parser returns
 * (`parseCSVContent` in lib/processor.js). Row 0 is the header; in every
 * data row column 0 is the source text and column j the translation for
 * `langCodes[j]`.
 */
module CsvTable {
  import opened Wrappers

  /** language code -> (source text -> translation): the `zhToLangMap` Map of Maps. */
  type Table = map<string, map<string, string>>

  /** One parsed CSV record: its cells, as strings. */
  type Row = seq<string>

  datatype CsvError = NoRows

  datatype Parsed = Parsed(table: Table, recordCount: int)

  function Min(a: int, b: int): int { if a < b then a else b }

  /** `table.get(lang)?.get(source)`. */
  function Get(table: Table, lang: string, source: string): Option<string>
  {
    if lang in table && source in table[lang] then Some(table[lang][source]) else None
  }

  /** `!values[0]`: a row without a source text is skipped. */
  predicate Skipped(row: Row)
  {
    |row| == 0 || row[0] == ""
  }

  /** The exclusive bound `Math.min(langCodes.length, values.length)` on the columns read. */
  function Columns(row: Row, langCodes: seq<string>): nat
  {
    Min(|langCodes|, |row|)
  }

  /** `values[j] || zhText`: an empty cell falls back to the source text. */
  function Cell(row: Row, j: nat): string
    requires 0 < j < |row|
  {
    if row[j] != "" then row[j] else row[0]
  }

  /** `zhToLangMap.get(lang).set(source, text)`, creating the inner map if needed. */
  function Put(table: Table, lang: string, source: string, text: string): Table
  {
    var inner := if lang in table then table[lang] else map[];
    table[lang := inner[source := text]]
  }

  /** The table after columns 1 .. j-1 of a (non-skipped) row were stored. */
  function AddColumns(table: Table, row: Row, langCodes: seq<string>, j: nat): Table
    requires |row| > 0
    requires j <= 1 || j <= Columns(row, langCodes)
  {
    if j <= 1 then table
    else Put(AddColumns(table, row, langCodes, j - 1), langCodes[j - 1], row[0], Cell(row, j - 1))
  }

  /** The table after one data row. */
  function AddRow(table: Table, row: Row, langCodes: seq<string>): Table
  {
    if Skipped(row) then table
    else AddColumns(table, row, langCodes, Columns(row, langCodes))
  }

  /** The table after data rows 1 .. n-1. */
  function TableUpTo(rows: seq<Row>, langCodes: seq<string>, n: nat): Table
    requires n <= |rows|
  {
    if n <= 1 then map[]
    else AddRow(TableUpTo(rows, langCodes, n - 1), rows[n - 1], langCodes)
  }

  /** `parseCSVContent` over the records the parser produced: fails only when
      there is no record at all, counts every record but the header, and
      builds the table row by row and column by column. */
  method ParseCsvContent(records: seq<Row>, langCodes: seq<string>) returns (r: Result<Parsed, CsvError>)
    ensures r.Failure? <==> |records| == 0
    ensures r.Success? ==> r.value.recordCount == |records| - 1 >= 0
    ensures r.Success? ==> r.value.table == TableUpTo(records, langCodes, |records|)
  {
    if |records| < 1 {
      return Failure(NoRows);
    }
    var zhToLangMap: Table := map[];
    var i := 1;
    while i < |records|
      invariant 1 <= i <= |records|
      invariant zhToLangMap == TableUpTo(records, langCodes, i)
    {
      var values := records[i];
      if |values| == 0 || values[0] == "" {
        i := i + 1;
        continue;
      }
      var zhText := values[0];
      ghost var before := zhToLangMap;
      var j := 1;
      while j < Min(|langCodes|, |values|)
        invariant 1 <= j && (j == 1 || j <= Columns(values, langCodes))
        invariant zhToLangMap == AddColumns(before, values, langCodes, j)
      {
        if langCodes[j] !in zhToLangMap {
          zhToLangMap := zhToLangMap[langCodes[j] := map[]];
        }
        var translation := if values[j] != "" then values[j] else zhText;
        zhToLangMap := zhToLangMap[langCodes[j] := zhToLangMap[langCodes[j]][zhText := translation]];
        j := j + 1;
      }
      i := i + 1;
    }
    return Success(Parsed(zhToLangMap, |records| - 1));
  }

  /** The last column c in 1 .. j-1 whose language code is `lang`. */
  function LastColumn(langCodes: seq<string>, lang: string, j: nat): (c: Option<nat>)
    requires j <= 1 || j <= |langCodes|
    ensures c.Some? ==> 1 <= c.value < j && langCodes[c.value] == lang
    ensures c.Some? ==> forall k :: c.value < k < j ==> langCodes[k] != lang
    ensures c.None? ==> forall k :: 1 <= k < j ==> langCodes[k] != lang
  {
    if j <= 1 then None
    else if langCodes[j - 1] == lang then Some(j - 1)
    else LastColumn(langCodes, lang, j - 1)
  }

  /** Reference definition of a table entry: search rows n-1 down to 1 for
      the last data row whose source text is `source` and that has a column
      for `lang`; its last such cell (or the source text, if that cell is
      empty) is the translation. */
  function LastTranslation(rows: seq<Row>, langCodes: seq<string>, lang: string, source: string, n: nat): Option<string>
    requires n <= |rows|
  {
    if n <= 1 then None
    else
      var row := rows[n - 1];
      if !Skipped(row) && row[0] == source && LastColumn(langCodes, lang, Columns(row, langCodes)).Some? then
        Some(Cell(row, LastColumn(langCodes, lang, Columns(row, langCodes)).value))
      else
        LastTranslation(rows, langCodes, lang, source, n - 1)
  }

  lemma {:induction false} AddColumnsGet(table: Table, row: Row, langCodes: seq<string>, j: nat, lang: string, source: string)
    requires |row| > 0
    requires j <= 1 || j <= Columns(row, langCodes)
    ensures Get(AddColumns(table, row, langCodes, j), lang, source) ==
      if row[0] == source && LastColumn(langCodes, lang, j).Some? then
        Some(Cell(row, LastColumn(langCodes, lang, j).value))
      else Get(table, lang, source)
  {
    if j > 1 {
      AddColumnsGet(table, row, langCodes, j - 1, lang, source);
    }
  }

  /** Every table entry is the translation of the last row that supplies
      one: later rows overwrite earlier ones, empty cells map the source text
      to itself, skipped rows and extra columns contribute nothing. */
  lemma {:induction false} TableIsLastTranslation(rows: seq<Row>, langCodes: seq<string>, lang: string, source: string, n: nat)
    requires n <= |rows|
    ensures Get(TableUpTo(rows, langCodes, n), lang, source) == LastTranslation(rows, langCodes, lang, source, n)
  {
    if n > 1 {
      TableIsLastTranslation(rows, langCodes, lang, source, n - 1);
      var row := rows[n - 1];
      if !Skipped(row) {
        AddColumnsGet(TableUpTo(rows, langCodes, n - 1), row, langCodes, Columns(row, langCodes), lang, source);
      }
    }
  }

  /** A row with an empty source cell never produces an entry, so the empty
      string is never translated. */
  lemma EmptySourceNeverTranslated(rows: seq<Row>, langCodes: seq<string>, lang: string)
    requires |rows| > 0
    ensures Get(TableUpTo(rows, langCodes, |rows|), lang, "") == None
  {
    TableIsLastTranslation(rows, langCodes, lang, "", |rows|);
    EmptySourceNoLastTranslation(rows, langCodes, lang, |rows|);
  }

  lemma {:induction false} EmptySourceNoLastTranslation(rows: seq<Row>, langCodes: seq<string>, lang: string, n: nat)
    requires n <= |rows|
    ensures LastTranslation(rows, langCodes, lang, "", n) == None
  {
    if n > 1 {
      EmptySourceNoLastTranslation(rows, langCodes, lang, n - 1);
    }
  }

  lemma {:induction false} AddColumnsLanguages(table: Table, row: Row, langCodes: seq<string>, j: nat, lang: string)
    requires |row| > 0
    requires j <= 1 || j <= Columns(row, langCodes)
    requires lang !in table
    requires forall k :: 1 <= k < j ==> langCodes[k] != lang
    ensures lang !in AddColumns(table, row, langCodes, j)
  {
    if j > 1 {
      AddColumnsLanguages(table, row, langCodes, j - 1, lang);
    }
  }

  /** Only the codes of columns 1 .. |langCodes|-1 get a table: in
      particular `langCodes[0]` gets none unless it is repeated later. */
  lemma {:induction false} OnlyColumnLanguages(rows: seq<Row>, langCodes: seq<string>, lang: string, n: nat)
    requires n <= |rows|
    requires forall k :: 1 <= k < |langCodes| ==> langCodes[k] != lang
    ensures lang !in TableUpTo(rows, langCodes, n)
  {
    if n > 1 {
      OnlyColumnLanguages(rows, langCodes, lang, n - 1);
      var row := rows[n - 1];
      if !Skipped(row) {
        AddColumnsLanguages(TableUpTo(rows, langCodes, n - 1), row, langCodes, Columns(row, langCodes), lang);
      }
    }
  }
}
