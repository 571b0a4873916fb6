/**
 * The bot's two report texts: the parse summary (`format_stats`) and the status summary
 * (`format_status_result`), whose error section lists the ten most frequent error messages.
 */
module Formatters {
  import opened Strings
  import opened Schemas
  import Aggregate

  /** No decimal rendering contains a line break. */
  lemma NumberHasNoNewline(n: int)
    ensures '\n' !in IntToString(n)
  {
  }

  // ----- format_stats -----

  /** The five lines `format_stats` always writes. */
  function StatsLines(stats: ParseStats, added: int): seq<string> {
    [ "📊 *Результаты парсинга:*",
      "├ Каталогов: " + IntToString(stats.catalogsParsed) + "/" + IntToString(stats.catalogsTotal),
      "├ Товаров: " + IntToString(stats.productsParsed) + "/" + IntToString(stats.productsTotal),
      "├ Изображений: " + IntToString(stats.imagesTotal),
      "└ Добавлено в таблицу: " + IntToString(added) ]
  }

  predicate HasFailures(stats: ParseStats) {
    stats.catalogsFailed != 0 || stats.productsFailed != 0
  }

  function FailureNote(stats: ParseStats): string {
    "⚠️ Ошибки: каталогов=" + IntToString(stats.catalogsFailed) + ", товаров=" + IntToString(stats.productsFailed)
  }

  /** `format_stats(stats, added_count)` */
  function FormatStats(stats: ParseStats, added: int): string {
    Join(StatsLines(stats, added) + (if HasFailures(stats) then ["\n" + FailureNote(stats)] else []), "\n")
  }

  /** None of the lines `format_stats` writes contains a line break of its own. */
  lemma StatsLinesNoNewline(stats: ParseStats, added: int)
    ensures forall i :: 0 <= i < 5 ==> '\n' !in StatsLines(stats, added)[i]
    ensures '\n' !in FailureNote(stats)
  {
    NumberHasNoNewline(stats.catalogsParsed);
    NumberHasNoNewline(stats.catalogsTotal);
    NumberHasNoNewline(stats.productsParsed);
    NumberHasNoNewline(stats.productsTotal);
    NumberHasNoNewline(stats.imagesTotal);
    NumberHasNoNewline(added);
    NumberHasNoNewline(stats.catalogsFailed);
    NumberHasNoNewline(stats.productsFailed);
  }

  /**
   * Read line by line, the text is the five fixed lines with the counters written out, followed,
   * exactly when a catalog or a product failed, by an empty line and the failure note.
   */
  lemma FormatStatsLines(stats: ParseStats, added: int)
    ensures Split(FormatStats(stats, added), '\n')
            == StatsLines(stats, added) + (if HasFailures(stats) then ["", FailureNote(stats)] else [])
  {
    var fixed := StatsLines(stats, added);
    var shown := fixed + (if HasFailures(stats) then ["", FailureNote(stats)] else []);
    StatsLinesNoNewline(stats, added);
    assert forall i :: 0 <= i < |shown| ==> '\n' !in shown[i] by {
      forall i | 0 <= i < |shown| ensures '\n' !in shown[i] {
        if i < 5 {
          assert shown[i] == fixed[i];
        }
      }
    }
    if HasFailures(stats) {
      JoinLeadingSeparator(fixed, FailureNote(stats), '\n');
      assert "\n" == ['\n'];
    }
    SplitJoin(shown, '\n');
  }

  // ----- format_status_result -----

  /** One entry of `errors_grouped`: a message and how often it occurred. */
  datatype ErrorGroup = ErrorGroup(message: string, count: nat)

  /** `items` are the entries of `groups`, each once, as `dict.items()` lists them. */
  ghost predicate ItemsOf(groups: map<string, nat>, items: seq<ErrorGroup>) {
    && (forall i, j :: 0 <= i < j < |items| ==> items[i].message != items[j].message)
    && (forall i :: 0 <= i < |items| ==> items[i].message in groups && groups[items[i].message] == items[i].count)
    && (forall m :: m in groups ==> exists i :: 0 <= i < |items| && items[i].message == m)
  }

  predicate NonIncreasing(gs: seq<ErrorGroup>) {
    forall i, j :: 0 <= i < j < |gs| ==> gs[i].count >= gs[j].count
  }

  /** Place `g` after every entry whose count is at least its own. */
  function Insert(g: ErrorGroup, sorted: seq<ErrorGroup>): seq<ErrorGroup> {
    if sorted == [] then [g]
    else if sorted[0].count >= g.count then [sorted[0]] + Insert(g, sorted[1..])
    else [g] + sorted
  }

  /** `sorted(items, key=lambda x: -x[1])`: by count, largest first, stable. */
  function SortByCount(items: seq<ErrorGroup>): seq<ErrorGroup> {
    if items == [] then [] else Insert(items[|items| - 1], SortByCount(items[..|items| - 1]))
  }

  /** The entries with count `v`, in order. */
  function WithCount(gs: seq<ErrorGroup>, v: nat): seq<ErrorGroup> {
    if gs == [] then [] else (if gs[0].count == v then [gs[0]] else []) + WithCount(gs[1..], v)
  }

  lemma {:induction false} InsertMultiset(g: ErrorGroup, sorted: seq<ErrorGroup>)
    ensures multiset(Insert(g, sorted)) == multiset(sorted) + multiset{g}
  {
    if sorted != [] && sorted[0].count >= g.count {
      InsertMultiset(g, sorted[1..]);
      assert sorted == [sorted[0]] + sorted[1..];
    }
  }

  lemma {:induction false} InsertSorted(g: ErrorGroup, sorted: seq<ErrorGroup>)
    requires NonIncreasing(sorted)
    ensures NonIncreasing(Insert(g, sorted))
    ensures forall x :: x in Insert(g, sorted) ==> x == g || x in sorted
  {
    if sorted != [] && sorted[0].count >= g.count {
      var rest := sorted[1..];
      InsertSorted(g, rest);
      var ins := Insert(g, rest);
      assert forall j :: 0 <= j < |ins| ==> sorted[0].count >= ins[j].count by {
        forall j | 0 <= j < |ins| ensures sorted[0].count >= ins[j].count {
          assert ins[j] in ins;
          if ins[j] != g {
            var k :| 0 <= k < |rest| && rest[k] == ins[j];
            assert rest[k] == sorted[k + 1];
          }
        }
      }
      assert Insert(g, sorted) == [sorted[0]] + ins;
      assert forall x :: x in rest ==> x in sorted;
    }
  }

  /** No entry of a descending list exceeds its head. */
  lemma {:induction false} BelowHead(sorted: seq<ErrorGroup>, v: nat)
    requires NonIncreasing(sorted) && sorted != [] && sorted[0].count < v
    ensures WithCount(sorted, v) == []
  {
    if |sorted| > 1 {
      assert sorted[1].count <= sorted[0].count;
      BelowHead(sorted[1..], v);
    }
  }

  lemma {:induction false} InsertWithCount(g: ErrorGroup, sorted: seq<ErrorGroup>, v: nat)
    requires NonIncreasing(sorted)
    ensures WithCount(Insert(g, sorted), v) == WithCount(sorted, v) + (if g.count == v then [g] else [])
  {
    if sorted != [] {
      var ins := Insert(g, sorted);
      var front := if sorted[0].count == v then [sorted[0]] else [];
      assert WithCount(sorted, v) == front + WithCount(sorted[1..], v);
      if sorted[0].count >= g.count {
        InsertWithCount(g, sorted[1..], v);
        assert ins[0] == sorted[0] && ins[1..] == Insert(g, sorted[1..]);
        assert WithCount(ins, v) == front + WithCount(ins[1..], v);
      } else {
        if g.count == v {
          BelowHead(sorted, v);
        }
        assert ins[0] == g && ins[1..] == sorted;
      }
    }
  }

  lemma {:induction false} WithCountAppend(a: seq<ErrorGroup>, b: seq<ErrorGroup>, v: nat)
    ensures WithCount(a + b, v) == WithCount(a, v) + WithCount(b, v)
  {
    if a == [] {
      assert a + b == b;
    } else {
      var ab := a + b;
      assert ab[0] == a[0];
      assert ab[1..] == a[1..] + b;
      WithCountAppend(a[1..], b, v);
      assert WithCount(ab, v) == (if a[0].count == v then [a[0]] else []) + WithCount(a[1..] + b, v);
    }
  }

  /** The sort lists the entries in non-increasing count order. */
  lemma {:induction false} SortByCountSorted(items: seq<ErrorGroup>)
    ensures NonIncreasing(SortByCount(items))
  {
    if items != [] {
      var n := |items| - 1;
      SortByCountSorted(items[..n]);
      InsertSorted(items[n], SortByCount(items[..n]));
    }
  }

  /** The sort is a permutation of the entries. */
  lemma {:induction false} SortByCountPermutes(items: seq<ErrorGroup>)
    ensures multiset(SortByCount(items)) == multiset(items)
  {
    if items != [] {
      var n := |items| - 1;
      SortByCountPermutes(items[..n]);
      var prev := SortByCount(items[..n]);
      assert SortByCount(items) == Insert(items[n], prev);
      InsertMultiset(items[n], prev);
      assert items == items[..n] + [items[n]];
      assert multiset(items) == multiset(items[..n]) + multiset{items[n]};
    }
  }

  /** The sort is stable: for every count, the entries with that count keep their order. */
  lemma {:induction false} SortByCountStable(items: seq<ErrorGroup>, v: nat)
    ensures WithCount(SortByCount(items), v) == WithCount(items, v)
  {
    if items != [] {
      var n := |items| - 1;
      SortByCountStable(items[..n], v);
      SortByCountSorted(items[..n]);
      InsertWithCount(items[n], SortByCount(items[..n]), v);
      WithCountAppend(items[..n], [items[n]], v);
      assert items == items[..n] + [items[n]];
    }
  }

  function Min(a: nat, b: nat): nat {
    if a < b then a else b
  }

  /** `sorted(...)[:10]` */
  function TopErrors(items: seq<ErrorGroup>): seq<ErrorGroup> {
    var s := SortByCount(items);
    s[..Min(10, |s|)]
  }

  /**
   * The ten entries shown are at most ten, in non-increasing order, drawn from the items, and no
   * entry left out occurs more often than any entry shown.
   */
  lemma TopErrorsMeaning(items: seq<ErrorGroup>)
    ensures var top := TopErrors(items);
            && |top| == Min(10, |items|)
            && NonIncreasing(top)
            && (forall t :: t in top ==> t in items)
            && (forall g, t :: g in items && g !in top && t in top ==> g.count <= t.count)
  {
    SortByCountSorted(items);
    SortByCountPermutes(items);
    var s := SortByCount(items);
    var top := TopErrors(items);
    assert |s| == |items| by {
      assert |multiset(s)| == |multiset(items)|;
    }
    forall t | t in top ensures t in items {
      assert t in multiset(s);
    }
    forall g, t | g in items && g !in top && t in top ensures g.count <= t.count {
      assert g in multiset(s);
      var j :| 0 <= j < |s| && s[j] == g;
      var i :| 0 <= i < |top| && top[i] == t;
      assert s[i] == t;
    }
  }

  /** `error[:80] + "..." if len(error) > 80 else error` */
  function Shorten(e: string): (r: string)
    ensures |r| <= 83
    ensures |e| <= 80 ==> r == e
    ensures |e| > 80 ==> |r| == 83 && r[..80] == e[..80] && r[80..] == "..."
  {
    if |e| > 80 then e[..80] + "..." else e
  }

  function ErrorLine(g: ErrorGroup): string {
    "• " + Shorten(g.message) + ": " + IntToString(g.count)
  }

  /** The fifteen lines of counters, blank lines and headings that always start the text. */
  function StatusHead(r: Aggregate.Stats): seq<string> {
    [ "📊 *Статистика обработки:*",
      "",
      "*Batch Jobs:*",
      "├ Всего: " + IntToString(r.totalJobs),
      "├ ✅ Успешно: " + IntToString(r.jobs.succeeded),
      "├ ⏳ В очереди: " + IntToString(r.jobs.pending),
      "├ 🔄 Выполняются: " + IntToString(r.jobs.running),
      "├ ❌ Ошибки: " + IntToString(r.jobs.failed),
      "└ 🚫 Отменены: " + IntToString(r.jobs.cancelled),
      "",
      "*Изображения:*",
      "├ Всего: " + IntToString(r.totalImages),
      "├ ✅ Успешно: " + IntToString(r.images.succeeded),
      "├ ⏳ Ожидают: " + IntToString(r.images.pending),
      "└ ❌ Ошибки: " + IntToString(r.images.failed) ]
  }

  const ERRORS_HEADING := "*Группировка ошибок:*"

  /** The lines of `format_status_result`, given the entries of `errors_grouped` in dict order. */
  function StatusLines(r: Aggregate.Stats, items: seq<ErrorGroup>): seq<string> {
    var top := TopErrors(items);
    StatusHead(r)
      + (if items == [] then [] else ["", ERRORS_HEADING] + ErrorLines(top))
  }

  /** `format_status_result(result)` */
  function FormatStatusResult(r: Aggregate.Stats, items: seq<ErrorGroup>): string {
    Join(StatusLines(r, items), "\n")
  }

  /** The lines the error section adds, one per shown entry. */
  function ErrorLines(top: seq<ErrorGroup>): (r: seq<string>)
    ensures |r| == |top| && ERRORS_HEADING !in r
  {
    var errs := seq(|top|, i requires 0 <= i < |top| => ErrorLine(top[i]));
    assert ERRORS_HEADING !in errs by {
      forall i | 0 <= i < |errs| ensures errs[i] != ERRORS_HEADING {
        assert errs[i][0] == '•';
      }
    }
    errs
  }

  /** The entries of a dict are empty exactly when the dict is. */
  lemma ItemsOfEmpty(groups: map<string, nat>, items: seq<ErrorGroup>)
    requires ItemsOf(groups, items)
    ensures items == [] <==> groups == map[]
  {
    if items != [] {
      assert items[0].message in groups;
    }
  }

  /**
   * The error section is there exactly when `errors_grouped` is non-empty, and it then holds one
   * line per shown entry, at most ten, in the order of the shown entries.
   */
  lemma StatusErrorSection(r: Aggregate.Stats, items: seq<ErrorGroup>)
    requires ItemsOf(r.errorsGrouped, items)
    ensures var lines, top := StatusLines(r, items), TopErrors(items);
            && (ERRORS_HEADING in lines <==> r.errorsGrouped != map[])
            && lines[..15] == StatusHead(r)
            && |lines| == 15 + (if r.errorsGrouped == map[] then 0 else 2 + Min(10, |items|))
            && (r.errorsGrouped != map[] ==> lines[15..] == ["", ERRORS_HEADING] + ErrorLines(top))
  {
    var head, top := StatusHead(r), TopErrors(items);
    assert |top| == Min(10, |items|) by {
      TopErrorsMeaning(items);
    }
    HeadingNotInHead(r);
    ItemsOfEmpty(r.errorsGrouped, items);
    var lines := StatusLines(r, items);
    if items != [] {
      assert lines == head + (["", ERRORS_HEADING] + ErrorLines(top));
      assert lines[15..] == ["", ERRORS_HEADING] + ErrorLines(top);
      assert lines[16] == ERRORS_HEADING;
    } else {
      assert lines == head;
    }
  }

  /** None of the fixed lines is the error heading. */
  lemma HeadingNotInHead(r: Aggregate.Stats)
    ensures |StatusHead(r)| == 15 && ERRORS_HEADING !in StatusHead(r)
  {
    var head := StatusHead(r);
    forall i | 0 <= i < |head| ensures head[i] != ERRORS_HEADING {
      if head[i] != [] && head[i][0] == '*' {
        assert head[i][1] != ERRORS_HEADING[1];
      }
    }
  }
}
