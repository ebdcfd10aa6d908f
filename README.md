# Sales CSV analyser — a Dafny model of its data logic

The analyser is a small web application. It takes a CSV file of sales with the columns `Data`,
`Produkt`, `Kategoria`, `Sprzedaż` and `Ilość`. From it the application computes three key
indicators, two chart series, a relabelled statistics table and the name of a downloadable
report. This project models the logic layer under the library calls, and proves what that
layer promises:

- **Loading** (`Processor`). `DataProcessor` is a class whose field `df` holds the table.
  - Construction refuses a missing file.
  - It then reads the file, checks that the five required columns are present and converts
    the `Data`, `Sprzedaż` and `Ilość` columns in place.
  - Every failure of those three steps comes back as one error under a fixed prefix.
  - `Create` is proved against the pure function `Load`. Every processor it returns holds a
    validated, typed frame (`Valid`).
- **Indicators** (`Kpis`, `Processor.DataProcessor.CalculateKpis`): total sales, mean sale,
  and the product with the largest summed quantity.
- **Chart data** (`Visualizer`): sales per calendar day, and sales per category sorted
  largest first. Both are built on a generic group-by-sum (`Grouping`) whose groups come
  out in ascending key order, as pandas' `groupby` produces them.
- **Statistics labels** (`Stats`): the Polish renaming of the eight `describe()` row labels.
- **Application** (`App`): the report file name derived from the input's name, and the
  choice between an uploaded file and the default `dane.csv`.

Sale amounts and quantities are integers (for example grosze), so sums and means are exact.
A timestamp is a day number plus a time of day, and the calendar date is the day number.
Product and category names are ordered by code point, which is how Python compares strings.

Library parsing is not modelled in detail:
- The result of `pd.read_csv` is a value: a rectangular table of text cells, or a read error.
- `pd.to_datetime` and `pd.to_numeric` are the two functions in `Processor.Parsers`. Each
  maps a cell's text to a value or an error message.
- Whether the default file exists is a boolean parameter.

The chart aggregations, the indicators and the relabelling are all functions of values, so
they cannot change the table they are given.

Errors and edge cases, as the code has them:
- `calculate_kpis` raises a `ValueError` from `idxmax` on a table without rows. By then
  `process_and_display` has already shown the data preview (app.py:40,44). Only construction
  failures stop all output.
- Construction errors all carry the load-failure prefix, including the missing-columns
  message. Only the missing-file error is reported without it.
- For a product tie, the code's sorted group keys and first-match `idxmax` give the smallest
  product name. `Kpis.TopProductSpec` proves that rule.

## Model

| member | source | states |
|---|---|---|
| Processor.MissingColumnsSpec | processor.py:13-40 | The missing list holds exactly the required names absent from the headers. It keeps their declared order (a subsequence of `REQUIRED_COLUMNS`), and it is empty iff all five are present. |
| Processor.Absent | processor.py:40 | The comprehension's result: membership iff a listed name is not a header, and a subsequence of the names. |
| Processor.ColumnCheck | processor.py:40-42 | Validation fails iff some required column is absent, and passes iff all five are present. |
| Processor.MissingMessage | processor.py:41-42 | The failure message is the fixed prefix followed by text that splits at ", " into exactly the missing columns, so every missing name is reported, not just the first. |
| Joining.SplitJoin | processor.py:42 | Splitting a ", "-joined non-empty list of comma-free names at ", " gives back the list. |
| Processor.ColumnCheckIgnoresExtras | processor.py:40-43 | Headers that agree on the presence of the five names validate alike, whatever extra columns or header order. |
| Processor.AbsentDependsOnlyOnNames | processor.py:40 | The absent list depends only on which listed names are headers. |
| Processor.MissingCategoryExample | processor.py:40-42 | Headers lacking `Kategoria` fail with the prefix followed by `Kategoria` alone. |
| Processor.ConvertColumn | processor.py:47-49 | A column conversion is all or nothing. It succeeds iff every cell of the column converts, and then overwrites exactly that column. Otherwise it fails with the message of the first cell that does not convert. |
| Processor.ConvertNamed | processor.py:47-49 | Converting a named column succeeds iff all its cells convert. It keeps the headers and the record count, changes only that column, and on failure reports a cell of that column. |
| Processor.PrepareSucceeds | processor.py:45-49 | `_prepare_data` succeeds iff every Data cell parses as a date and every Sprzedaż and Ilość cell as a number. |
| Processor.PrepareResult | processor.py:47-49 | After success the three columns hold the parsed values. Every other cell, the headers and the record count are unchanged. |
| Processor.PrepareTyped | processor.py:45-49 | A prepared frame satisfies the processor invariant: required columns present, a date in Data, numbers in Sprzedaż and Ilość. |
| Processor.PrepareFailsOnDate | processor.py:47 | An unparsable Data cell makes preparation fail with that cell's message. |
| Processor.PrepareFailsOnAmount | processor.py:47-48 | With Data convertible, an unparsable Sprzedaż cell makes preparation fail with that cell's message. |
| Processor.PrepareFailsOnQuantity | processor.py:47-49 | With Data and Sprzedaż convertible, a failing preparation reports an Ilość cell that does not parse. |
| Processor.Load | processor.py:15-36 | The whole constructor as a value. A successful load always yields a validated, typed frame. |
| Processor.LoadErrors | processor.py:26-36 | No file gives "Nie przekazano pliku." before anything else. Every other failure carries the load-failure prefix in front of the inner message. |
| Processor.LoadValidatesFirst | processor.py:32-33 | With a required column missing, the outcome is the prefixed validation error whatever the parsers do, so columns are checked before any conversion. |
| Processor.LoadSucceeds | processor.py:29-36 | Loading a read table succeeds iff all five columns are present and every date and number cell parses. |
| Processor.LoadRows | processor.py:30-49 | A loaded table has one row per file record, in file order. Each row holds the parsed date, the product and category text, and the parsed amount and quantity. |
| Processor.DataProcessor.Read | processor.py:30 | The constructor sets `df` to the file's table with every cell as text. |
| Processor.DataProcessor.ValidateColumns | processor.py:38-43 | Fails iff a required column is absent from `df`'s headers, and agrees with `ColumnCheck`. |
| Processor.DataProcessor.PrepareData | processor.py:45-49 | Overwrites `df` column by column. It passes iff `Prepare` succeeds, and the new `df` is `Prepare`'s frame and satisfies `Valid`. It fails with `Prepare`'s error; a failure keeps the headers and record count but may leave earlier columns converted. |
| Processor.DataProcessor.Create | processor.py:15-36 | Fails iff `Load` fails, with the same error. A success is a fresh processor satisfying `Valid` whose `df` is `Load`'s frame. |
| Processor.DataProcessor.CalculateKpis | processor.py:52-69 | Absent iff the table has no rows. Otherwise the total is the sum of Sprzedaż, mean × row count = total, and the product is a top product. |
| Kpis.AverageSale | processor.py:61 | The mean times the row count equals the total. |
| Kpis.AverageBounds | processor.py:61 | The mean lies between any lower and upper bound of the sale amounts. |
| Kpis.FirstMax | processor.py:62 | `idxmax`: an index holding the largest total, with every earlier total strictly smaller. |
| Kpis.TopProductSpec | processor.py:62 | A top product exists iff there are rows. It occurs in the table, no product has a larger summed Ilość, and any product with an equal sum has a larger name. |
| Kpis.TopProductUnique | processor.py:62 | At most one product meets that description, so the choice is determined. |
| Kpis.KpisExample | processor.py:60-62 | Widget (100, 2 units) and Gadget (50, 5 units) give total 150, mean 75 and top product Gadget. |
| Stats.RenameIndex | processor.py:90 | Renaming changes only the row labels: columns and values are unchanged, and each label is mapped through the table or kept. |
| Stats.LabelMapKeys | processor.py:80-89 | The map has an entry for each of the eight `describe()` labels and no other. |
| Stats.LabelMapDistinct | processor.py:80-89 | The eight labels go to eight distinct Polish labels. |
| Stats.LabelMapFresh | processor.py:80-89 | No Polish label is itself a `describe()` label. |
| Stats.DescribeRelabelled | processor.py:80-90 | A `describe()` table comes out with the eight Polish labels in the same order. |
| Stats.RenameIndexInjective | processor.py:90 | Two tables with `describe()` labels that agree after renaming were equal before. |
| Grouping.GroupSumSpec | visualizer.py:15 | Group-by-sum gives keys in strictly ascending order, each once, exactly the keys that occur. Each entry holds the sum over its key's rows, and the entries add up to the overall sum. |
| Grouping.SortDescSpec | visualizer.py:37 | The descending sort gives non-increasing totals and is a permutation (same multiset) of its input. It keeps the keys, their distinctness and the grand total. |
| Visualizer.DailySalesSpec | visualizer.py:15 | One entry per calendar day that occurs, days strictly ascending, each holding that day's sales. The entries add up to the total sales. |
| Visualizer.CategorySalesSpec | visualizer.py:37 | One entry per category that occurs, each holding that category's sales, totals non-increasing. It is a re-ordering of the grouped series, and the entries add up to the total sales. |
| Visualizer.CategoryExample | visualizer.py:37 | A: 100 + 200 and B: 700 come out as B 700, then A 300. |
| Lex.IsStrictTotalOrder | visualizer.py:37 | Code-point string order, used for group keys, is irreflexive, transitive and total. |
| App.Basename | app.py:84 | `os.path.basename`: the result holds no "/", is a suffix of the path, and is either the whole path or preceded by "/". |
| App.Stem | app.py:84 | `split('.')[0]`: the result holds no ".", is a prefix, and is either the whole text or followed by ".". |
| App.ReportFileNameShape | app.py:84 | The name is `raport_sprzedazy_` + stem + `.xlsx`. The stem holds no "/" and no ".", and is the last path component up to its first ".". |
| App.DirectoryIgnored | app.py:84 | Any directory part is ignored: name(d + "/" + b) = name(b) when b holds no "/". |
| App.StemCases | app.py:84 | A basename without "." is the whole stem, and a leading "." gives an empty stem. |
| App.PlainNameReport | app.py:84 | A plain name `a.t` gives `raport_sprzedazy_a.xlsx`. |
| App.DefaultReportName | app.py:84-120 | The default `dane.csv` gives `raport_sprzedazy_` + `dane` + `.xlsx`. |
| App.SelectInput | app.py:111-123 | An upload is processed iff present. Otherwise the default path is processed iff it exists, and otherwise nothing is processed. |
| App.UploadTakesPrecedence | app.py:111-113 | With an upload, whether the default exists makes no difference, and the report is named after the upload. |
| App.DefaultFallback | app.py:114-123 | Without an upload, an existing default is processed and named `raport_sprzedazy_dane.xlsx`. A missing one means nothing is processed. |

## Left out

- `pd.read_csv`, `pd.to_datetime`, `pd.to_numeric`: these are library parsers. They are parameters (a read result and two cell parsers). Dtype inference, missing (NaN) cells and pandas' exact error texts are not modelled. `pd.to_datetime` is modelled cell by cell. pandas 2 infers one date format from the column's first value, so a column mixing date formats fails there but can pass here. This concerns the date cases of `Processor.PrepareSucceeds`, `Processor.PrepareFailsOnDate`, `Processor.LoadSucceeds` and `Processor.LoadRows`.
- `describe()` statistics (mean, standard deviation, interpolated quantiles): floating point. Only the relabelling is modelled, with values of any type.
- `generate_excel_report`: binary output through openpyxl.
- Plotly figure construction and layout: rendering only.
- `process_and_display`, the Streamlit page, the progress-bar loop, logging and the `os.path.exists` / `open` calls: UI, delay and I/O. The existence check is a boolean parameter.
- The `Exception` branch of `__init__` catches any exception, including ones the parsers raise. Here such a failure is one of the parsers' error results.
- Floating-point arithmetic: amounts and quantities are integers, and the mean is an exact rational. Dafny integers are unbounded, so the silent 64-bit wrap-around of pandas' int64 `sum()` (for example on an all-integer `Ilość` column) is not modelled either.
- Kpis.TopProductSpec: on a table without rows, pandas' `idxmax` raises. The model returns no indicators instead of raising.
- Visualizer.CategorySalesSpec: categories with equal totals keep ascending key order. That is the stable order of the model's insertion sort; pandas' default quicksort promises no order for ties.
- App.Basename: only "/" is a separator. Windows "\\" separators are not modelled.
