# NBU open-data dashboard: a Dafny model of its decision rules

The dashboard is a single Streamlit script (`app.py`). It lists the National
Bank of Ukraine's open-data JSON feeds in a sidebar. The user ticks feeds and may
add a custom URL. The script fetches each selected feed and turns it into a table.
It then shows a summary table and, for each dataset, a chart, a statistics table
and a preview of the first rows.

This project models the rules the script itself defines:

- **Date-axis detection** (`DateAxis`). `detect_date_column` returns the first
  column whose lower-cased name contains `date` or ends with `dt`. The model has
  a specification function, `FirstDateColumn`, and the loop itself,
  `DetectDateColumn`, which is proved equal to it.
- **Chart decision** (`Charts`). `render_dataset` picks a line chart, a
  "no numeric fields" note, a histogram, or nothing. It coerces the date column,
  drops the rows with a missing axis cell, and takes the first 50 rows as the
  preview.
- **Selection assembly** (`Sidebar`). The nested checkbox loop builds
  `selected_urls`, then appends the optional custom dataset.
- **Summary and rendering loops** (`Dashboard`). Both loops run over the
  selection and skip failed fetches. The summary loop records each failure.
  `RunDashboard` is one run of the whole script.

`Tables` holds the abstract table: unique column names and rows that map column
names to cells. It also records the set of columns the data-frame library types
as numeric. `Seqs` holds the order-preserving filter that every one of these
loops is an instance of.

Inputs taken as given:

- `fetch : string -> Fetch` is what `fetch_data` yields per URL in the summary
  loop. The result is a table with its time stamp, or the exception raised.
- `refetch : string -> Fetch` is what `fetch_data` yields per URL in the
  rendering loop. The cache stores only successful results. A success in the
  first loop is therefore served again (`Dashboard.CacheHits`), while a failed
  URL is requested again and may now succeed.
- `toDate : Converter` stands for `pd.to_datetime(df[date_col], errors="coerce")`.
  It converts a whole column into a column of the same length. Each result may
  depend on the other cells of the column, as the library infers one format for
  the whole column.
- `numericDtype` stands for `select_dtypes(include="number")`.
- `ticked : set<string>` holds the checkbox state. Each checkbox is keyed by its
  URL.
- `widgets : map<string, string>` holds the select-box state. It is keyed by
  `metric_<name>` or `dist_<name>`. A select box returns the widget's stored value
  while that value is still an option, and the first option otherwise.

Points worth knowing about the code:

- A column named `update` passes the name test, because it contains `date`
  (`DateAxis.UpdateIsDateName`).
- Numeric columns are the data-frame library's dtype classification, taken as
  given. Cell contents are not inspected.
- The preview is taken after the date column has been converted in place. So
  when a date column exists, the preview shows the converted cells
  (`Charts.PreviewRows`).
- `dropna` keeps every complete row. Two identical records both stay in a chart
  (`Tables.DropNulls`, the multiset clause).

## Model

| member | source | states |
|---|---|---|
| `DateAxis.HasSubstring` | app.py:81 | the substring scan succeeds only when the pattern is no longer than the searched name |
| `DateAxis.HasSubstringIff` | app.py:81 | the scan used for `"date" in col.lower()` succeeds exactly when the pattern occurs at some index of the name |
| `DateAxis.IsDateName` | app.py:81 | a name passes iff its lower-cased form has `date` at some index or ends with `dt`; a passing name has at least two characters |
| `DateAxis.FirstDateColumn` | app.py:79-83 | a returned column is one of the columns, passes the name test and is non-empty (so `if date_col:` means "found"); `None` exactly when no column passes the test |
| `DateAxis.FirstDateColumnIsEarliest` | app.py:80-82 | the returned column sits at an index before which no column passes the name test |
| `DateAxis.FirstDateColumnAt` | app.py:80-82 | conversely, a passing column with no passing column before it is the one returned |
| `DateAxis.DetectDateColumn` | app.py:79-83 | the loop with early return yields exactly the first matching column, or `None` |
| `DateAxis.StartDateWins` | app.py:80-82 | of `start_date`, `end_date`, `value`, the axis is `start_date` |
| `DateAxis.UpdateIsDateName` | app.py:81 | `update` passes the name test, because it contains `date` |
| `DateAxis.UpperCaseSuffix` | app.py:81 | the suffix test is made on the lower-cased name, so `ValueDT` passes |
| `Tables.NumericColumns` | app.py:91 | the numeric columns are exactly the columns with a numeric dtype, in column order |
| `Tables.DropNulls` | app.py:102 | the kept rows are a subsequence of the input; a row is kept iff its cells in the axis columns are all present; each kept row occurs as often as in the input |
| `Tables.Coerce` | app.py:94 | replacing the date column with the converted column changes only that column's cells, row i getting the converted column's i-th cell; rows, columns and keys stay; the column loses its numeric dtype |
| `Tables.CoercePreservesValid` | app.py:94 | coercing a column keeps unique column names and rectangular rows |
| `Tables.ConvertedRowsKept` | app.py:94-102 | after the date column is converted, `dropna` on the date and metric columns keeps a row iff both its cells are present |
| `Tables.ConvertedRowsOrigin` | app.py:94-102 | every row kept after the conversion is an input row whose date cell is replaced by the converted cell of that row |
| `Tables.Preview` | app.py:134 | the preview is a prefix of the rows of length min(50, row count) |
| `Charts.RenderDataset` | app.py:86-134 | the header shows the table's own row and column counts; the statistics cover exactly the numeric-dtype columns; the preview has min(50, row count) rows |
| `Charts.Shown` | app.py:93-94 | the rendered table has the same columns and row count; a valid table stays valid; without a date column it is unchanged; cells outside the date column are unchanged; with a date column, row i's date cell is the i-th cell of the converted date column |
| `Charts.Selectbox` | app.py:96-100 | the metric chosen is always one of the numeric columns: the stored choice while it is still valid, otherwise the first |
| `Charts.NumericColumnsNonEmpty` | app.py:95 | `if numeric_cols:` holds exactly when some column has a numeric dtype |
| `Charts.ChartKind` | app.py:93-127 | line chart iff a date-named column and a numeric column exist; note iff a date column exists but no numeric one; histogram iff only a numeric one exists; nothing iff neither; statistics shown iff a numeric column exists |
| `Charts.LineChartAxes` | app.py:93-107 | a table with a date-named column and a numeric column gets a line chart; its x axis is the earliest date-named column; its y axis is a numeric column, namely the stored choice when that is valid and otherwise the first numeric column |
| `Charts.LineChartPoints` | app.py:94-102 | with a date-named and a numeric column, the points are a subsequence of the converted rows; a converted row is a point iff its date and metric cells are both present; each point occurs as often as in the converted rows; every point is an input row with its date cell replaced by the converted cell of that row |
| `Charts.HistogramValues` | app.py:115-124 | a table with a numeric column and no date-named column gets a histogram; its metric is a numeric column: the stored choice when valid, otherwise the first numeric column; its rows are a subsequence of the input rows; a row is included iff its metric cell is present, as often as it occurs in the input |
| `Charts.PreviewRows` | app.py:134 | on every branch, the preview holds min(50, row count) rows in table order, with the date column converted when there is one |
| `Charts.ExchangeRateExample` | app.py:93-111 | two dated exchange-rate rows give a line of `rate` against `date` through both rows, none dropped |
| `Charts.SingleRecordExample` | app.py:114-134 | a one-row table with only text columns gets no chart and no statistics, and its preview is that row |
| `Sidebar.CustomEntry` | app.py:151-152 | one entry iff the custom URL is non-empty, with that URL and a non-empty name, the given name when there is one |
| `Sidebar.SelectionOf` | app.py:140-152 | every entry is a ticked catalogue entry or the custom entry, and there is at most one entry more than the catalogue has ticked |
| `Sidebar.AssembleSelection` | app.py:140-152 | the nested loop yields the ticked catalogue entries in catalogue order, followed by the custom entry when its URL is non-empty |
| `Sidebar.AllItemsMembers` | app.py:141-143 | an entry is among the iterated items exactly when some category lists it |
| `Sidebar.AllItemsCategoryOrder` | app.py:141-143 | the entries of the first k categories come, as a block, before those of the later categories |
| `Sidebar.CheckedItemsExactly` | app.py:141-145 | the ticked part is a subsequence of the catalogue order and holds exactly the catalogue entries whose URL is ticked |
| `Sidebar.SelectionShape` | app.py:151-152 | the ticked entries come first; with a non-empty URL, exactly one more entry follows, with that URL and the given name or `Custom dataset` |
| `Sidebar.EmptySelection` | app.py:151-157 | the selection is empty (the prompt case) exactly when no catalogue entry is ticked and the custom URL is empty |
| `Sidebar.CatalogueOrderExample` | app.py:141-152 | ticked entries are listed in catalogue order whatever the order of ticking, and an unnamed custom dataset comes last under the default name |
| `Dashboard.Summarize` | app.py:159-177 | the loop with `continue` yields exactly `SummaryOf` and the list of failed datasets in selection order |
| `Dashboard.RenderAll` | app.py:184-190 | the second loop yields exactly `SectionsOf` over its own fetch outcomes: each dataset fetched successfully there is rendered in selection order, and failures are skipped |
| `Dashboard.RunDashboard` | app.py:137-190 | the prompt is shown iff nothing is ticked and the custom URL is empty; otherwise the page is the summary and failures of the first loop and the sections of the second, over the assembled selection |
| `Dashboard.SummaryMatchesSucceeded` | app.py:161-177 | the summary has one row per successful fetch, in selection order, carrying that dataset's name, URL, row count, column count and fetch time |
| `Dashboard.SectionsMatchSucceeded` | app.py:184-190 | the sections are the renderings of the datasets fetched successfully in the rendering loop, in selection order |
| `Dashboard.ErrorsAreIsolated` | app.py:161-167 | each selected dataset gives either a summary row or a failure, never both; the failures are exactly the datasets whose fetch failed; the successes keep selection order |
| `Dashboard.SummarizedAreRendered` | app.py:164-187 | when the cache serves every earlier success, each summarised dataset is rendered from the same table, in the same relative order |
| `Dashboard.SummaryAgreesWithSections` | app.py:161-190 | when successes are served from the cache and failures fail again, the k-th summary row and the k-th section name the same dataset with the same row and column counts |
| `Dashboard.RetriedFailureIsRendered` | app.py:164-190 | a dataset whose first fetch fails gets an error and no summary row, yet is rendered when the second request succeeds |
| `Dashboard.SummaryOf` | app.py:161-177 | at most one row per selected dataset; each row names a selected dataset whose fetch succeeded and carries that table's counts and fetch time |
| `Dashboard.SectionsOf` | app.py:184-190 | at most one section per selected dataset; each is the rendering of a selected dataset whose fetch succeeded |

## Left out

- `fetch_data` (HTTP request, status check, the double JSON parse, `json_normalize` and the time stamp) is the parameter `fetch`. Its flattening rules belong to the data-frame library.
- The 15-minute cache is given by its effect: `fetch` for the first loop and `refetch` for the second. The expiry window itself is not modelled. A success that expires between the two loops falls outside `CacheHits`.
- Dashboard.Summarize: within the first loop, one URL has one outcome. A URL selected twice, whose first fetch fails and whose second request succeeds, is not captured.
- Dashboard.RenderAll: within the rendering loop, one URL likewise has one `refetch` outcome. In the code an uncached failure is requested again at each occurrence, so a URL selected twice can be rendered once (first request fails, second succeeds); the model renders it at both occurrences or at neither. `Dashboard.SectionsOf` shares this limitation.
- Numeric dtype detection and date parsing are pandas internals. They are the inputs `numericDtype` and `toDate`. `toDate` is one column-to-column function, shared by all datasets.
- In the code, the date column is coerced in place on the frame the cache hands out. That frame is a copy, so the model produces a new table instead.
- `describe()` statistics are floating-point work inside pandas. The model records only which columns the statistics table covers.
- `LowerChar`: only ASCII letters are lower-cased. No other character lower-cases to `d`, `a`, `t` or `e`, so the name test gives the same answer as Python's full Unicode `str.lower`.
- All Streamlit and altair rendering is left out: page setup, titles, texts, error texts, spinners, chart encodings, bin widths, heights and `st.stop`.
- The static feed catalogue is data. A small catalogue of the same shape is used as an example input.
- Cell values are abstract (`int` stands for a number), and no arithmetic is performed on them.
- The model assumes unique column names (`Table.Valid`), as JSON object keys are. Duplicate columns after flattening are not modelled.
- Streamlit rejects two widgets with the same key. The catalogue checkboxes are keyed by URL (app.py:144), so two catalogue entries sharing a URL raise that error whether ticked or not. Two rendered datasets with the same name raise it at their shared `metric_`/`dist_` select box (app.py:99, app.py:119) when both reach one; sharing a name alone does not. That error is not modelled. A custom URL equal to a ticked catalogue URL raises nothing, since the text inputs carry no key: both entries are selected, fetched and rendered, as the model has it.
