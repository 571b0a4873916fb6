/**
 * The two worksheets of the "По заказам" spreadsheet as sequences of rows of cells, each row
 * as `get_all_values` returns it (cells are strings, rows may be short, row 0 is the header).
 *
 * - 'миграция': column A is the model, column B its order number.
 * - 'изображения': A model, B order number, C category, D status, E position, F custom
 *   prompt, G attempt number, H image url, I page url.
 *
 * The remote worksheet is a `Worksheet` object whose `rows` the updating operations change.
 */
module Sheets {
  import opened Wrappers
  import opened Strings
  import opened Schemas

  type Row = seq<string>

  const DONE := "Готово"
  const GOOD_ENOUGH := "И так классно"
  const NEW := "Новое"
  /** Statuses `get_pending_images` skips. */
  const EXCLUDED_STATUSES := {DONE, GOOD_ENOUGH}
  /** Column D, 1-based, as `update_cell` numbers columns. */
  const STATUS_COLUMN := 4

  class Worksheet {
    var rows: seq<Row>

    constructor (rows0: seq<Row>)
      ensures rows == rows0
    {
      rows := rows0;
    }
  }

  /** `all_values[1:]`: the rows under the header (none for an empty sheet). */
  function Body(rows: seq<Row>): (r: seq<Row>)
    ensures |r| == if rows == [] then 0 else |rows| - 1
    ensures forall i :: 0 <= i < |r| ==> r[i] == rows[i + 1]
  {
    if rows == [] then [] else rows[1..]
  }

  // ----- 'миграция': model -> order number -----

  /** The stripped model of a row with at least two cells, unless it is blank. */
  function MigrationModel(row: Row): Option<string> {
    if |row| < 2 then None
    else
      var m := Strip(row[0]);
      if m == "" then None else Some(m)
  }

  /** How many rows name model `m`. */
  function Occurrences(rows: seq<Row>, m: string): nat {
    if rows == [] then 0
    else
      var n := |rows| - 1;
      Occurrences(rows[..n], m) + if MigrationModel(rows[n]) == Some(m) then 1 else 0
  }

  /** The `Counter` of models, filled row by row; it counts the models `model_to_order` records. */
  function Counts(rows: seq<Row>): (r: map<string, nat>)
    ensures r.Keys == LastOrder(rows).Keys
  {
    if rows == [] then map[]
    else
      var n := |rows| - 1;
      var c := Counts(rows[..n]);
      match MigrationModel(rows[n])
      case None => c
      case Some(m) => c[m := (if m in c then c[m] else 0) + 1]
  }

  /** `model_to_order`: each model's stripped order number, a later row overwriting an earlier one. */
  function LastOrder(rows: seq<Row>): map<string, string> {
    if rows == [] then map[]
    else
      var n := |rows| - 1;
      var l := LastOrder(rows[..n]);
      match MigrationModel(rows[n])
      case None => l
      case Some(m) => l[m := Strip(rows[n][1])]
  }

  /** The map `get_order_numbers_map` builds from the rows under the header. */
  function OrderNumbers(rows: seq<Row>): map<string, string> {
    var c, l := Counts(rows), LastOrder(rows);
    map m | m in l :: if c[m] > 1 then "" else l[m]
  }

  /** The counter holds, for every model some row names, how many rows name it. */
  lemma {:induction false} CountsMeaning(rows: seq<Row>, m: string)
    ensures m in Counts(rows) <==> Occurrences(rows, m) > 0
    ensures m in Counts(rows) ==> Counts(rows)[m] == Occurrences(rows, m)
  {
    if rows != [] {
      CountsMeaning(rows[..|rows| - 1], m);
    }
  }

  /** Some row names `m` exactly when `m` is counted. */
  lemma {:induction false} OccurrencesPositive(rows: seq<Row>, m: string)
    ensures Occurrences(rows, m) > 0 <==> exists i :: 0 <= i < |rows| && MigrationModel(rows[i]) == Some(m)
  {
    if rows != [] {
      var n := |rows| - 1;
      OccurrencesPositive(rows[..n], m);
      if exists i :: 0 <= i < |rows| && MigrationModel(rows[i]) == Some(m) {
        var i :| 0 <= i < |rows| && MigrationModel(rows[i]) == Some(m);
        if i < n {
          assert rows[..n][i] == rows[i];
        }
      }
      if exists i :: 0 <= i < n && MigrationModel(rows[..n][i]) == Some(m) {
        var i :| 0 <= i < n && MigrationModel(rows[..n][i]) == Some(m);
        assert rows[i] == rows[..n][i];
      }
    }
  }

  /** Two different rows naming `m` count at least twice. */
  lemma {:induction false} OccurrencesTwo(rows: seq<Row>, m: string, i: nat, j: nat)
    requires i < j < |rows| && MigrationModel(rows[i]) == Some(m) && MigrationModel(rows[j]) == Some(m)
    ensures Occurrences(rows, m) >= 2
  {
    var n := |rows| - 1;
    if j < n {
      assert rows[..n][i] == rows[i] && rows[..n][j] == rows[j];
      OccurrencesTwo(rows[..n], m, i, j);
    } else {
      assert rows[..n][i] == rows[i];
      OccurrencesPositive(rows[..n], m);
    }
  }

  /** A row naming `m` that no other row names counts once. */
  lemma {:induction false} OccurrencesOne(rows: seq<Row>, m: string, i: nat)
    requires i < |rows| && MigrationModel(rows[i]) == Some(m)
    requires forall j :: 0 <= j < |rows| && j != i ==> MigrationModel(rows[j]) != Some(m)
    ensures Occurrences(rows, m) == 1
  {
    var n := |rows| - 1;
    if i < n {
      assert rows[..n][i] == rows[i];
      forall j | 0 <= j < n && j != i
        ensures MigrationModel(rows[..n][j]) != Some(m)
      {
        assert rows[..n][j] == rows[j];
      }
      OccurrencesOne(rows[..n], m, i);
    } else {
      forall j | 0 <= j < n
        ensures MigrationModel(rows[..n][j]) != Some(m)
      {
        assert rows[..n][j] == rows[j];
      }
      OccurrencesPositive(rows[..n], m);
    }
  }

  /** The order number kept for `m` is the one of the last row naming it. */
  lemma {:induction false} LastOrderIsLast(rows: seq<Row>, m: string, i: nat)
    requires i < |rows| && MigrationModel(rows[i]) == Some(m)
    requires forall j :: i < j < |rows| ==> MigrationModel(rows[j]) != Some(m)
    ensures m in LastOrder(rows) && LastOrder(rows)[m] == Strip(rows[i][1])
  {
    var n := |rows| - 1;
    if i < n {
      assert rows[..n][i] == rows[i];
      forall j | i < j < n
        ensures MigrationModel(rows[..n][j]) != Some(m)
      {
        assert rows[..n][j] == rows[j];
      }
      LastOrderIsLast(rows[..n], m, i);
    }
  }

  /** The keys are exactly the non-blank models of rows with at least two cells. */
  lemma OrderNumbersKeys(rows: seq<Row>, m: string)
    ensures m in OrderNumbers(rows) <==> exists i :: 0 <= i < |rows| && MigrationModel(rows[i]) == Some(m)
  {
    CountsMeaning(rows, m);
    OccurrencesPositive(rows, m);
  }

  /** A model named by two rows maps to "". */
  lemma OrderNumbersDuplicate(rows: seq<Row>, m: string, i: nat, j: nat)
    requires i < j < |rows| && MigrationModel(rows[i]) == Some(m) && MigrationModel(rows[j]) == Some(m)
    ensures m in OrderNumbers(rows) && OrderNumbers(rows)[m] == ""
  {
    OccurrencesTwo(rows, m, i, j);
    CountsMeaning(rows, m);
  }

  /** A model named by one row only maps to that row's stripped order number. */
  lemma OrderNumbersSingle(rows: seq<Row>, m: string, i: nat)
    requires i < |rows| && MigrationModel(rows[i]) == Some(m)
    requires forall j :: 0 <= j < |rows| && j != i ==> MigrationModel(rows[j]) != Some(m)
    ensures m in OrderNumbers(rows) && OrderNumbers(rows)[m] == Strip(rows[i][1])
  {
    OccurrencesOne(rows, m, i);
    CountsMeaning(rows, m);
    LastOrderIsLast(rows, m, i);
  }

  /** `get_order_numbers_map`: count and record every row under the header, then blank the duplicates. */
  method GetOrderNumbersMap(migration: Worksheet) returns (result: map<string, string>)
    ensures result == OrderNumbers(Body(migration.rows))
  {
    var counts, modelToOrder := TallyModels(Body(migration.rows));
    result := map m | m in modelToOrder :: if counts[m] > 1 then "" else modelToOrder[m];
  }

  /** The counting loop of `get_order_numbers_map`. */
  method TallyModels(rows: seq<Row>) returns (counts: map<string, nat>, modelToOrder: map<string, string>)
    ensures counts == Counts(rows) && modelToOrder == LastOrder(rows)
  {
    counts, modelToOrder := map[], map[];
    var i := 0;
    while i < |rows|
      invariant 0 <= i <= |rows|
      invariant counts == Counts(rows[..i]) && modelToOrder == LastOrder(rows[..i])
    {
      assert rows[..i + 1][..i] == rows[..i];
      var row := rows[i];
      if |row| >= 2 {
        var model, orderNumber := Strip(row[0]), Strip(row[1]);
        if model != "" {
          counts := counts[model := (if model in counts then counts[model] else 0) + 1];
          modelToOrder := modelToOrder[model := orderNumber];
        }
      }
      i := i + 1;
    }
    assert rows[..i] == rows;
  }

  /** Every item with its order number from the map, "" for a model the map lacks. */
  function Populated(items: seq<ParseResult>, orders: map<string, string>): seq<ParseResult> {
    seq(|items|, i requires 0 <= i < |items| => items[i].(orderNumber := if items[i].model in orders then orders[items[i].model] else ""))
  }

  /**
   * What populating sets: a model with one row under the header gets that row's order number,
   * a model with two gets "", an unknown model gets "", and nothing else of an item changes.
   */
  lemma PopulatedOrderNumber(items: seq<ParseResult>, rows: seq<Row>, k: nat)
    requires k < |items|
    ensures |Populated(items, OrderNumbers(rows))| == |items|
    ensures Populated(items, OrderNumbers(rows))[k].(orderNumber := items[k].orderNumber) == items[k]
    ensures (forall i :: 0 <= i < |rows| ==> MigrationModel(rows[i]) != Some(items[k].model))
            ==> Populated(items, OrderNumbers(rows))[k].orderNumber == ""
    ensures forall i, j :: (0 <= i < j < |rows| && MigrationModel(rows[i]) == Some(items[k].model)
              && MigrationModel(rows[j]) == Some(items[k].model)) ==> Populated(items, OrderNumbers(rows))[k].orderNumber == ""
  {
    var m := items[k].model;
    if forall i :: 0 <= i < |rows| ==> MigrationModel(rows[i]) != Some(m) {
      OrderNumbersKeys(rows, m);
    }
    forall i, j | 0 <= i < j < |rows| && MigrationModel(rows[i]) == Some(m) && MigrationModel(rows[j]) == Some(m)
      ensures Populated(items, OrderNumbers(rows))[k].orderNumber == ""
    {
      OrderNumbersDuplicate(rows, m, i, j);
    }
  }

  /** Populating twice from the same sheet is populating once. */
  lemma PopulatedIdempotent(items: seq<ParseResult>, orders: map<string, string>)
    ensures Populated(Populated(items, orders), orders) == Populated(items, orders)
  {
    var p := Populated(items, orders);
    assert forall i :: 0 <= i < |items| ==> p[i].model == items[i].model;
  }

  /** `populate_order_numbers`: the items are updated in place and the same list is returned. */
  method PopulateOrderNumbers(migration: Worksheet, items: array<ParseResult>) returns (r: array<ParseResult>)
    modifies items
    ensures r == items
    ensures items[..] == Populated(old(items[..]), OrderNumbers(Body(migration.rows)))
  {
    var orders := GetOrderNumbersMap(migration);
    ghost var before := items[..];
    var i := 0;
    while i < items.Length
      invariant 0 <= i <= items.Length
      invariant forall k :: 0 <= k < i ==> items[k] == Populated(before, orders)[k]
      invariant forall k :: i <= k < items.Length ==> items[k] == before[k]
    {
      items[i] := items[i].(orderNumber := if items[i].model in orders then orders[items[i].model] else "");
      i := i + 1;
    }
    r := items;
  }

  // ----- 'изображения': existing urls -----

  /** Column H, stripped, of a row with at least 8 cells. */
  function UrlCell(row: Row): Option<string> {
    if |row| >= 8 then Some(Strip(row[7])) else None
  }

  /** The non-empty column-H values of the rows. */
  function Urls(rows: seq<Row>): set<string> {
    if rows == [] then {}
    else
      var n := |rows| - 1;
      var prev := Urls(rows[..n]);
      match UrlCell(rows[n])
      case Some(u) => if u != "" then prev + {u} else prev
      case None => prev
  }

  /** `get_existing_urls`: the set of non-empty urls under the header. */
  function ExistingUrls(sheet: seq<Row>): set<string> {
    Urls(Body(sheet))
  }

  /** A url is known exactly when it is non-empty and some row with 8 cells carries it. */
  lemma {:induction false} UrlsMeaning(rows: seq<Row>, u: string)
    ensures u in Urls(rows) <==> u != "" && exists i :: 0 <= i < |rows| && UrlCell(rows[i]) == Some(u)
  {
    if rows != [] {
      var n := |rows| - 1;
      UrlsMeaning(rows[..n], u);
      if exists i :: 0 <= i < |rows| && UrlCell(rows[i]) == Some(u) {
        var i :| 0 <= i < |rows| && UrlCell(rows[i]) == Some(u);
        if i < n {
          assert rows[..n][i] == rows[i];
        }
      }
      if exists i :: 0 <= i < n && UrlCell(rows[..n][i]) == Some(u) {
        var i :| 0 <= i < n && UrlCell(rows[..n][i]) == Some(u);
        assert rows[i] == rows[..n][i];
      }
    }
  }

  /** Appending rows adds their urls to the known ones. */
  lemma {:induction false} UrlsAppend(a: seq<Row>, b: seq<Row>)
    ensures Urls(a + b) == Urls(a) + Urls(b)
  {
    if b != [] {
      var n := |b| - 1;
      assert (a + b)[..|a| + n] == a + b[..n];
      UrlsAppend(a, b[..n]);
    } else {
      assert a + b == a;
    }
  }

  method GetExistingUrls(images: Worksheet) returns (urls: set<string>)
    ensures urls == ExistingUrls(images.rows)
  {
    var rows := Body(images.rows);
    urls := {};
    var i := 0;
    while i < |rows|
      invariant 0 <= i <= |rows|
      invariant urls == Urls(rows[..i])
    {
      assert rows[..i + 1][..i] == rows[..i];
      if |rows[i]| >= 8 {
        var url := Strip(rows[i][7]);
        if url != "" {
          urls := urls + {url};
        }
      }
      i := i + 1;
    }
    assert rows[..i] == rows;
  }

  // ----- 'изображения': appending parse results -----

  /**
   * The row written for an item: status "Новое", an empty custom prompt and attempt 0. The 0 is
   * written as a number; here it is the cell text "0".
   */
  function ResultRow(item: ParseResult): Row {
    [item.model, item.orderNumber, item.category, NEW, IntToString(item.position), "", "0", item.imageUrl, item.pageUrl]
  }

  /** The items whose url the sheet does not know yet, in order (the known set is not updated while filtering). */
  function NewItems(items: seq<ParseResult>, known: set<string>): (r: seq<ParseResult>)
    ensures forall it :: it in r ==> it in items && it.imageUrl !in known
  {
    if items == [] then []
    else
      var n := |items| - 1;
      var prev := NewItems(items[..n], known);
      assert forall it :: it in items[..n] ==> it in items;
      prev + if items[n].imageUrl in known then [] else [items[n]]
  }

  function ResultRows(items: seq<ParseResult>): (r: seq<Row>)
    ensures |r| == |items|
  {
    seq(|items|, i requires 0 <= i < |items| => ResultRow(items[i]))
  }

  /** An item is written exactly when it is one of the given ones and its url is not known. */
  lemma {:induction false} NewItemsMeaning(items: seq<ParseResult>, known: set<string>, it: ParseResult)
    ensures it in NewItems(items, known) <==> it in items && it.imageUrl !in known
  {
    if items != [] {
      var n := |items| - 1;
      NewItemsMeaning(items[..n], known, it);
      assert items == items[..n] + [items[n]];
    }
  }

  /** Urls that read back as themselves: non-empty and without surrounding whitespace. */
  predicate CleanUrls(items: seq<ParseResult>) {
    forall it :: it in items ==> it.imageUrl != "" && Strip(it.imageUrl) == it.imageUrl
  }

  /** The urls of written rows are the items' urls. */
  lemma {:induction false} ResultRowsUrls(items: seq<ParseResult>)
    requires CleanUrls(items)
    ensures forall it :: it in items ==> it.imageUrl in Urls(ResultRows(items))
  {
    if items != [] {
      var n := |items| - 1;
      var rows := ResultRows(items);
      assert rows[..n] == ResultRows(items[..n]);
      assert forall it :: it in items[..n] ==> it in items;
      ResultRowsUrls(items[..n]);
      assert UrlCell(rows[n]) == Some(items[n].imageUrl);
      assert Urls(rows) == Urls(rows[..n]) + {items[n].imageUrl};
      assert items == items[..n] + [items[n]];
    }
  }

  /** Rows appended under a header add their urls to the sheet's. */
  lemma ExistingUrlsAppend(sheet: seq<Row>, added: seq<Row>)
    requires |sheet| >= 1
    ensures ExistingUrls(sheet + added) == ExistingUrls(sheet) + Urls(added)
  {
    assert Body(sheet + added) == Body(sheet) + added;
    UrlsAppend(Body(sheet), added);
  }

  /** After writing, every given item's url is known, provided the sheet has its header. */
  lemma WrittenUrlsKnown(sheet: seq<Row>, items: seq<ParseResult>)
    requires |sheet| >= 1 && CleanUrls(items)
    ensures var added := ResultRows(NewItems(items, ExistingUrls(sheet)));
            forall it :: it in items ==> it.imageUrl in ExistingUrls(sheet + added)
  {
    var known := ExistingUrls(sheet);
    var unseen := NewItems(items, known);
    var added := ResultRows(unseen);
    ExistingUrlsAppend(sheet, added);
    assert forall it :: it in unseen ==> it.imageUrl in Urls(added) by {
      assert CleanUrls(unseen);
      ResultRowsUrls(unseen);
    }
    forall it | it in items
      ensures it.imageUrl in known + Urls(added)
    {
      if it.imageUrl !in known {
        NewItemsMeaning(items, known, it);
      }
    }
  }

  /**
   * Writing the same items a second time appends nothing, provided the sheet has its header and
   * every url is non-empty and already stripped (the sheet is read back stripped).
   */
  lemma WriteResultsIdempotent(sheet: seq<Row>, items: seq<ParseResult>)
    requires |sheet| >= 1 && CleanUrls(items)
    ensures var added := ResultRows(NewItems(items, ExistingUrls(sheet)));
            NewItems(items, ExistingUrls(sheet + added)) == []
  {
    var added := ResultRows(NewItems(items, ExistingUrls(sheet)));
    var known := ExistingUrls(sheet + added);
    WrittenUrlsKnown(sheet, items);
    if NewItems(items, known) != [] {
      var it := NewItems(items, known)[0];
      NewItemsMeaning(items, known, it);
      assert false;
    }
  }

  /** `write_results`: append one row per new item and return how many were appended. */
  method WriteResults(images: Worksheet, items: seq<ParseResult>) returns (added: nat)
    modifies images
    ensures var rows := ResultRows(NewItems(items, ExistingUrls(old(images.rows))));
            images.rows == old(images.rows) + rows && added == |rows|
  {
    var existing := GetExistingUrls(images);
    var unseen := NewItems(items, existing);
    if unseen == [] {
      assert images.rows + [] == images.rows;
      return 0;
    }
    var rowsToAdd: seq<Row> := [];
    var i := 0;
    while i < |unseen|
      invariant 0 <= i <= |unseen|
      invariant rowsToAdd == ResultRows(unseen[..i])
    {
      rowsToAdd := rowsToAdd + [ResultRow(unseen[i])];
      i := i + 1;
    }
    assert unseen[..i] == unseen;
    images.rows := images.rows + rowsToAdd;
    added := |rowsToAdd|;
  }

  // ----- 'изображения': rows waiting for a regeneration -----

  /** `ImageRecord`: the stripped cells of one row. */
  datatype ImageRecord = ImageRecord(model: string, orderNumber: string, category: string, status: string,
                                     position: string, customPrompt: string, attemptNumber: string,
                                     url: string, pageUrl: string)

  /** Every cell of a row, stripped. */
  function StrippedCells(row: Row): (r: seq<string>)
    ensures |r| == |row|
  {
    seq(|row|, k requires 0 <= k < |row| => Strip(row[k]))
  }

  /** The record of a row with 8 cells, a status other than the excluded ones and a custom prompt. */
  function PendingRecord(row: Row): Option<ImageRecord> {
    if |row| < 8 then None
    else
      var cells := StrippedCells(row);
      var status, prompt := cells[3], cells[5];
      if status in EXCLUDED_STATUSES || prompt == "" then None
      else
        Some(ImageRecord(cells[0], cells[1], cells[2], status, cells[4], prompt,
                         if |row| > 6 then cells[6] else "",
                         if |row| > 7 then cells[7] else "",
                         if |row| > 8 then cells[8] else ""))
  }

  /** The values `f` gives the rows, in row order, skipping the rows it gives none for. */
  function Collect<R>(rows: seq<Row>, f: Row -> Option<R>): (r: seq<R>)
    ensures |r| <= |rows|
  {
    if rows == [] then []
    else
      var n := |rows| - 1;
      Collect(rows[..n], f) + match f(rows[n]) case Some(x) => [x] case None => []
  }

  /** Every collected value comes from some row. */
  lemma {:induction false} CollectSound<R>(rows: seq<Row>, f: Row -> Option<R>, x: R)
    requires x in Collect(rows, f)
    ensures exists i :: 0 <= i < |rows| && f(rows[i]) == Some(x)
  {
    var n := |rows| - 1;
    if x in Collect(rows[..n], f) {
      CollectSound(rows[..n], f, x);
      var i :| 0 <= i < n && f(rows[..n][i]) == Some(x);
      assert rows[i] == rows[..n][i];
    } else {
      assert f(rows[n]) == Some(x);
    }
  }

  /** Every value a row gives is collected. */
  lemma {:induction false} CollectComplete<R>(rows: seq<Row>, f: Row -> Option<R>, i: nat)
    requires i < |rows| && f(rows[i]).Some?
    ensures f(rows[i]).value in Collect(rows, f)
  {
    var n := |rows| - 1;
    if i < n {
      assert rows[..n][i] == rows[i];
      CollectComplete(rows[..n], f, i);
    }
  }

  /** A value is collected exactly when some row gives it. */
  lemma CollectMeaning<R>(rows: seq<Row>, f: Row -> Option<R>, x: R)
    ensures x in Collect(rows, f) <==> exists i :: 0 <= i < |rows| && f(rows[i]) == Some(x)
  {
    if x in Collect(rows, f) {
      CollectSound(rows, f, x);
    }
    if exists i :: 0 <= i < |rows| && f(rows[i]) == Some(x) {
      var i :| 0 <= i < |rows| && f(rows[i]) == Some(x);
      CollectComplete(rows, f, i);
    }
  }

  /** The records of the qualifying rows, in sheet order. */
  function PendingRecords(rows: seq<Row>): seq<ImageRecord> {
    Collect(rows, PendingRecord)
  }

  /**
   * A record is returned exactly when some row under the header yields it, and no returned
   * record has an excluded status or an empty custom prompt.
   */
  lemma PendingRecordsMeaning(rows: seq<Row>, rec: ImageRecord)
    ensures rec in PendingRecords(rows) <==> exists i :: 0 <= i < |rows| && PendingRecord(rows[i]) == Some(rec)
    ensures rec in PendingRecords(rows) ==> rec.status !in EXCLUDED_STATUSES && rec.customPrompt != ""
  {
    CollectMeaning(rows, PendingRecord, rec);
    if rec in PendingRecords(rows) {
      var i :| 0 <= i < |rows| && PendingRecord(rows[i]) == Some(rec);
    }
  }

  /** A short row has an empty page url; a ninth cell gives it. */
  lemma PendingPageUrl(row: Row)
    requires PendingRecord(row).Some?
    ensures PendingRecord(row).value.pageUrl == if |row| < 9 then "" else Strip(row[8])
    ensures PendingRecord(row).value.url == Strip(row[7])
  {
  }

  /** `get_pending_images` */
  method GetPendingImages(images: Worksheet) returns (records: seq<ImageRecord>)
    ensures records == PendingRecords(Body(images.rows))
  {
    var rows := Body(images.rows);
    records := [];
    var i := 0;
    while i < |rows|
      invariant 0 <= i <= |rows|
      invariant records == PendingRecords(rows[..i])
    {
      assert rows[..i + 1][..i] == rows[..i];
      var rec := PendingRecord(rows[i]);
      if rec.Some? {
        records := records + [rec.value];
      }
      i := i + 1;
    }
    assert rows[..i] == rows;
  }

  // ----- 'изображения': marking rows done -----

  /**
   * `update_cell(row, col, value)`: both indices 1-based, so the cell is `rows[row - 1][col - 1]`.
   * The model only writes inside existing rows.
   */
  function UpdateCell(rows: seq<Row>, row: nat, col: nat, value: string): seq<Row>
    requires 1 <= row <= |rows| && 1 <= col <= |rows[row - 1]|
  {
    rows[row - 1 := rows[row - 1][col - 1 := value]]
  }

  /** The index, among the rows under the header, of the first row whose url is `url`. */
  function FirstMatch(body: seq<Row>, url: string): (r: Option<nat>)
    ensures r.Some? ==> r.value < |body| && UrlCell(body[r.value]) == Some(url)
    ensures r.Some? ==> forall j :: 0 <= j < r.value ==> UrlCell(body[j]) != Some(url)
    ensures r.None? ==> forall j :: 0 <= j < |body| ==> UrlCell(body[j]) != Some(url)
  {
    if body == [] then None
    else if UrlCell(body[0]) == Some(url) then Some(0)
    else
      match FirstMatch(body[1..], url)
      case None => None
      case Some(k) => Some(k + 1)
  }

  /**
   * `mark_image_as_done`: the first row under the header with that url gets status "Готово";
   * sheet row numbers start at 2 under the header, so the k-th body row is sheet row k + 2.
   */
  method MarkImageAsDone(images: Worksheet, url: string) returns (found: bool)
    modifies images
    ensures found == FirstMatch(Body(old(images.rows)), url).Some?
    ensures found ==> images.rows == UpdateCell(old(images.rows), FirstMatch(Body(old(images.rows)), url).value + 2, STATUS_COLUMN, DONE)
    ensures !found ==> images.rows == old(images.rows)
  {
    var body := Body(images.rows);
    var j := 0;
    while j < |body|
      invariant 0 <= j <= |body|
      invariant forall k :: 0 <= k < j ==> UrlCell(body[k]) != Some(url)
    {
      var rowIdx := j + 2;
      var row := body[j];
      if |row| >= 8 && Strip(row[7]) == url {
        assert FirstMatch(body, url) == Some(j);
        images.rows := UpdateCell(images.rows, rowIdx, STATUS_COLUMN, DONE);
        return true;
      }
      j := j + 1;
    }
    found := false;
  }

  /** A row under the header whose url is one of the given ones. */
  predicate Marks(row: Row, urls: set<string>) {
    |row| >= 8 && Strip(row[7]) in urls
  }

  /** How many rows under the header carry one of the urls. */
  function MatchCount(body: seq<Row>, urls: set<string>): (r: nat)
    ensures r <= |body|
  {
    if body == [] then 0
    else
      var n := |body| - 1;
      MatchCount(body[..n], urls) + if Marks(body[n], urls) then 1 else 0
  }

  /** No row carries a url of the empty set. */
  lemma {:induction false} MatchCountNone(body: seq<Row>)
    ensures MatchCount(body, {}) == 0
  {
    if body != [] {
      MatchCountNone(body[..|body| - 1]);
    }
  }

  /** The sheet after every row under the header carrying one of the urls got status "Готово". */
  function MarkAll(rows: seq<Row>, urls: set<string>): seq<Row> {
    seq(|rows|, k requires 0 <= k < |rows| => if k >= 1 && Marks(rows[k], urls) then rows[k][STATUS_COLUMN - 1 := DONE] else rows[k])
  }

  /** Marking keeps every url, so marking twice is marking once. */
  lemma MarkAllIdempotent(rows: seq<Row>, urls: set<string>)
    ensures MarkAll(MarkAll(rows, urls), urls) == MarkAll(rows, urls)
  {
    var once := MarkAll(rows, urls);
    forall k | 0 <= k < |rows|
      ensures MarkAll(once, urls)[k] == once[k]
    {
      assert |once[k]| == |rows[k]| && (|rows[k]| >= 8 ==> once[k][7] == rows[k][7]);
    }
  }

  /** No row marked done is still pending: every pending record's url is outside the marked set. */
  lemma MarkedNotPending(rows: seq<Row>, urls: set<string>)
    ensures forall rec :: rec in PendingRecords(Body(MarkAll(rows, urls))) ==> rec.url !in urls
  {
    var marked := MarkAll(rows, urls);
    var body := Body(marked);
    StripFixed(DONE);
    forall rec | rec in PendingRecords(body)
      ensures rec.url !in urls
    {
      PendingRecordsMeaning(body, rec);
      var i :| 0 <= i < |body| && PendingRecord(body[i]) == Some(rec);
      assert body[i] == marked[i + 1];
    }
  }

  /**
   * `mark_images_as_done`: every row under the header whose url is in the list gets status
   * "Готово" and is counted; an empty list returns 0 at once.
   */
  method MarkImagesAsDone(images: Worksheet, imageUrls: seq<string>) returns (marked: nat)
    modifies images
    ensures var urls := set u | u in imageUrls;
            images.rows == MarkAll(old(images.rows), urls) && marked == MatchCount(Body(old(images.rows)), urls)
  {
    var urlsSet := set u | u in imageUrls;
    if imageUrls == [] {
      assert urlsSet == {};
      assert MarkAll(images.rows, urlsSet) == images.rows;
      MatchCountNone(Body(images.rows));
      return 0;
    }
    var rows;
    rows, marked := MarkRows(images.rows, urlsSet);
    images.rows := rows;
  }

  /** The loop of `mark_images_as_done`, over a copy of the sheet's values. */
  method MarkRows(orig: seq<Row>, urls: set<string>) returns (rows: seq<Row>, marked: nat)
    ensures rows == MarkAll(orig, urls) && marked == MatchCount(Body(orig), urls)
  {
    ghost var target := MarkAll(orig, urls);
    var body := Body(orig);
    rows := orig;
    marked := 0;
    var j := 0;
    while j < |body|
      invariant 0 <= j <= |body|
      invariant |rows| == |orig|
      invariant forall k :: 0 <= k < |orig| ==> rows[k] == if 1 <= k <= j then target[k] else orig[k]
      invariant marked == MatchCount(body[..j], urls)
    {
      assert body[..j + 1][..j] == body[..j];
      var rowIdx := j + 2;
      var row := body[j];
      assert row == orig[rowIdx - 1];
      if |row| >= 8 && Strip(row[7]) in urls {
        assert target[rowIdx - 1] == row[STATUS_COLUMN - 1 := DONE];
        rows := UpdateCell(rows, rowIdx, STATUS_COLUMN, DONE);
        marked := marked + 1;
      } else {
        assert target[rowIdx - 1] == row;
      }
      j := j + 1;
    }
    assert body[..j] == body;
  }
}
