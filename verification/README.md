# Bike-rental dashboard: column derivations

A model of the data-preparation layer of the bike-rental dashboard
(`dashboard/dashboard.py`). The dashboard loads a table with one row per day
and adds labelled columns to it; everything else in the script draws charts.
The model covers four derivations, each as a pure function over a sequence of
day records:

- **Loading** (`Load`, `Labels`). Season codes 1–4 get the Indonesian season
  names "Musim Dingin", "Musim Semi", "Musim Panas" and "Musim Gugur". Weekday
  codes 0–6 get "Sunday" … "Saturday". Both lookups use `Series.map` with a
  dictionary, so any other code gets an absent label (`None`), not an error.
- **Seasonal chart** (`SeasonChart`). The mean `cnt` per season label. Rows
  without a label are dropped, as `groupby` drops NaN keys. The labels present
  are listed in Python string order, as `groupby` sorts its keys: Dingin,
  Gugur, Panas, Semi. The bar whose label equals `idxmax` gets the accent
  colour `#e74c3c` and every other bar gets `#3498db`. `idxmax` is the first
  largest mean.
- **RFM proxies** (`Rfm`). `recency` is the number of days back from the latest
  date in the table. `frequency` is the number of rows that share the row's
  `instant`. `monetary` is a copy of `cnt`.
- **Count groups** (`Binning`). `pd.cut` with edges 0, 100, …, 500 and its
  default right-closed bins. The bins are (0,100], (100,200], (200,300],
  (300,400] and (400,500], labelled "Sangat Rendah", "Rendah", "Sedang",
  "Tinggi" and "Sangat Tinggi". `Cut` finds the bin the way pandas does: a
  left-sided `searchsorted`, then positions 0 and past-the-end are discarded.

`Dashboard.Derive` runs the steps in the script's order. The script stops
partway when no day has a season code from 1 to 4. The seasonal series is
then empty, and the insight text's `idxmax` raises before the RFM and
count-group columns are built. `Derive` returns `None` in exactly that case.
Each layer of row
datatype (`LoadedRow`, `RfmRow`, `BinnedRow`) wraps the previous one, so "only
new columns are added" is stated as the inner row being unchanged.

Dates are already-parsed day numbers, so `(max - date).dt.days` is an integer
subtraction. Means are exact `real` quotients.

Two behaviours of the code that its edges and labels do not make obvious,
both followed by the model:
- A count of 0 gets no group, although the edge list starts at 0: `pd.cut`
  leaves out the lowest edge unless `include_lowest=True`.
- The chart's categories are in sorted label order, not season-code order, so
  winter (code 1) comes first and spring (code 2) last. On tied means this
  order decides which bar is highlighted.

## Model

| member | source | states |
|---|---|---|
| Labels.SeasonName | dashboard/dashboard.py:19-20 | the season label is present exactly for codes 1 to 4, and is one of the four mapped names |
| Labels.SeasonCode | dashboard/dashboard.py:19-20 | reading a label back gives a code exactly for the four season names, and that code's label is the name read |
| Labels.WeekdayName | dashboard/dashboard.py:23-28 | the weekday label is present exactly for codes 0 to 6, and is one of the seven day names |
| Labels.WeekdayCode | dashboard/dashboard.py:23-28 | reading a day name back gives a code exactly for the seven names, and that code's label is the name read |
| Labels.SeasonNameRoundTrip | dashboard/dashboard.py:19-20 | every defined season label decodes to the code it came from |
| Labels.WeekdayNameRoundTrip | dashboard/dashboard.py:23-28 | every defined weekday label decodes to the code it came from |
| Labels.LabelsInjective | dashboard/dashboard.py:19-28 | two codes with the same defined label are the same code |
| Labels.LabelTables | dashboard/dashboard.py:19-28 | the concrete tables: 1 to 4 name the seasons, 0 is Sunday and 6 is Saturday; 0, 5, -1 and 7 have no label |
| Load.LoadRow | dashboard/dashboard.py:18-28 | a labelled row keeps the source fields; each label is present exactly for in-table codes and decodes back to the row's code |
| Load.LoadData | dashboard/dashboard.py:15-33 | loading keeps row count, order and source fields, and labels every row as `LoadRow` describes |
| Rfm.MaxDate | dashboard/dashboard.py:99 | the table's maximum date is at least every row's date and is the date of some row |
| Rfm.CountInstant | dashboard/dashboard.py:100 | the group count is at most the table size, and is positive exactly when some row has that `instant` |
| Rfm.AddRfm | dashboard/dashboard.py:99-101 | count, order and rows kept; recency is the distance to the latest date, never negative, and zero exactly on rows dated at the maximum; frequency is the size of the row's `instant` group, between 1 and the table size; monetary equals `cnt` |
| Rfm.CountInstantIsGroupSize | dashboard/dashboard.py:100 | the recursive count equals the number of positions whose `instant` matches |
| Rfm.UniqueGroupIsSingleton | dashboard/dashboard.py:100 | with unique instants, a row's `instant` group is the row alone |
| Rfm.SharedGroupHasTwo | dashboard/dashboard.py:100 | two rows sharing an `instant` make a group of at least two |
| Rfm.SingletonGroupsIffUnique | dashboard/dashboard.py:100 | every row's `instant` group is the row alone if and only if no two rows share an `instant` |
| Rfm.FrequencyOneIffUnique | dashboard/dashboard.py:100 | every frequency is 1 if and only if no two rows share an `instant` |
| Binning.SearchSortedLeft | dashboard/dashboard.py:130 | the left-sided search position: every edge before it is below the value, and the edge at it is not |
| Binning.Cut | dashboard/dashboard.py:130 | over increasing edges, a bin is found exactly when the value lies in (first edge, last edge], and it is the right-closed bin holding the value |
| Binning.CntGroupOf | dashboard/dashboard.py:130 | a count gets a group exactly when 0 < cnt <= 500, and the group of rank k covers (100k, 100(k+1)] |
| Binning.AddCntGroup | dashboard/dashboard.py:130 | count, order and rows kept; each row's group is present exactly on (0,500] and is the bin holding its `cnt` |
| Binning.CntGroupMonotone | dashboard/dashboard.py:130 | of two labelled counts, the larger never gets a lower-ranked group |
| Binning.CntGroupClosedForm | dashboard/dashboard.py:130 | on (0,500] the group's rank is (cnt - 1) / 100 |
| Binning.CntGroupEdges | dashboard/dashboard.py:130 | 0 and 501 get no group; 100 is "Sangat Rendah", 250 is "Sedang", 500 is "Sangat Tinggi" |
| Binning.CntLabelTexts | dashboard/dashboard.py:130 | one group per bin, whose texts in bin order are "Sangat Rendah", "Rendah", "Sedang", "Tinggi", "Sangat Tinggi", each at its own rank |
| SeasonChart.SeasonOrderIsSortedLabels | dashboard/dashboard.py:19-59 | the chart's category order holds exactly the four season labels, strictly sorted as Python sorts strings |
| SeasonChart.GroupCount | dashboard/dashboard.py:59 | a season group is non-empty exactly when some row carries that label |
| SeasonChart.GroupCountIsGroupSize | dashboard/dashboard.py:59 | a season group's size is the number of rows carrying that label |
| SeasonChart.PresentKeys | dashboard/dashboard.py:59 | the kept keys are exactly the given keys that have rows; if the given order is strictly sorted, so are the kept keys |
| SeasonChart.PresentKeysInOrder | dashboard/dashboard.py:59 | the kept keys are a subsequence of the given order: nothing added, nothing reordered |
| SeasonChart.GroupExtremes | dashboard/dashboard.py:59 | a non-empty season group has a day with the smallest and a day with the largest count in it |
| SeasonChart.MeanWithinGroup | dashboard/dashboard.py:59 | a season's mean lies between the counts of two of its own days |
| SeasonChart.SeasonalAvg | dashboard/dashboard.py:59 | one entry per season label that has rows, in sorted order, holding that group's mean |
| SeasonChart.ArgMax | dashboard/dashboard.py:63 | `idxmax` picks a largest mean, and the first one on ties |
| SeasonChart.Palette | dashboard/dashboard.py:62-63 | one colour per bar; over distinct labels, the accent goes to exactly the `idxmax` bar |
| SeasonChart.PaletteHighlight | dashboard/dashboard.py:62-63 | over distinct labels there is one accent bar when there is any bar; its value is at least every other and strictly above the bars listed before it |
| SeasonChart.SeasonPaletteHighlight | dashboard/dashboard.py:59-63 | the chart has one accent bar if it has any bar; its mean is at least every other and strictly above the bars listed before it |
| SeasonChart.SeasonChartHighlighted | dashboard/dashboard.py:59-63 | a seasonal chart with any bar highlights exactly one, the first largest mean, as one named property |
| SeasonChart.SeasonIndexOfLoaded | dashboard/dashboard.py:59 | the chart has a bar for a label exactly when some day's season code maps to it |
| SeasonChart.SeasonAveragesCoverLabelledRows | dashboard/dashboard.py:59 | the group sizes add up to the number of rows with a season label: unlabelled rows are dropped and no row is counted twice |
| SeasonChart.GroupMeanBounds | dashboard/dashboard.py:59 | a season's mean lies between the smallest and the largest count of its days |
| Dashboard.Derive | dashboard/dashboard.py:15-130 | the page fails (no result) exactly when no day has a season code from 1 to 4; otherwise the result is exactly the derived table, the seasonal means of the loaded table and their palette, a non-empty chart with one colour per bar |
| Dashboard.DeriveHighlight | dashboard/dashboard.py:59-63 | whenever the page gets past the chart, exactly one bar is red, and its mean is at least every other and strictly above the bars before it (the first largest, as `idxmax` picks) |
| Dashboard.ChartEmptyIffUnlabelled | dashboard/dashboard.py:59-90 | the seasonal series is empty, so the insight's `idxmax` fails, exactly when no day has a season code from 1 to 4 |
| Dashboard.DeriveTable | dashboard/dashboard.py:15-130 | the derived table keeps count, order and source fields; recency is non-negative, frequency at least 1, monetary is `cnt` |
| Dashboard.DeriveTableRows | dashboard/dashboard.py:15-130 | each derived row is the loaded row of the same input day, with its season and weekday labels; monetary is that day's `cnt`; `cnt_group` is the bin of that day's `cnt`, if any |
| Dashboard.DeriveTableRfm | dashboard/dashboard.py:99-100 | each derived row's frequency is the number of loaded rows with its `instant`; its recency is 0 exactly when no day of the input is later |
| Dashboard.ExampleRows | dashboard/dashboard.py:19-130 | a summer Saturday with 250 rentals is labelled "Musim Panas", "Saturday" and "Sedang"; the latest day has recency 0 and the day before has 1 |
| Dashboard.ExampleChart | dashboard/dashboard.py:59-63 | with a winter day of 100 and a summer day of 250, the bars are Dingin then Panas, with means 100 and 250, and only Panas is highlighted |
| Dashboard.PaletteExample | dashboard/dashboard.py:62-63 | bars of 100 then 250 are coloured blue `#3498db` then red `#e74c3c` |

## Left out

- Reading `data/day.csv` and its failure when the file is missing: file I/O. The table arrives as a sequence of `Load.Day`.
- `pd.to_datetime` on `dteday`, and its failure on an unparsable date: a library parser. Dates are day numbers.
- The `@st.cache_data` memoisation: process-level caching. Every function here is pure, so caching changes nothing.
- Every Streamlit call (page setup, titles, text, the data-structure checkbox) and every matplotlib/seaborn chart.
- The working-day and weather bar charts, the box plot and the scatter plot: they are plotting calls with no derivation of their own.
- The RFM correlation heatmap and the seasonal-variation percentage in the insight text: floating-point statistics shown as text.
- The static conclusions and recommendations.
- SeasonChart.SeasonalAvg: means are exact rationals, while pandas computes float64 means. Rounding could break a near-tie differently.
- SeasonChart.SeasonalAvg: the candidate categories are the four season labels. A row labelled anything else would get a bar from pandas but none here. The loader only writes those four labels, so no such row reaches the chart.
- Rfm.AddRfm: `transform('count')` counts non-missing `cnt` values. `cnt` is never missing in this model, so the count is the group size.
- Labels.SeasonName: a missing (NaN) code is not modelled. Codes are integers.
- Binning.Cut: pandas raises an error when the edges are not increasing. Here that is a precondition, and the dashboard's edges meet it.
- `temp`, `workingday` and `weathersit` are carried through unchanged. No derivation reads them.
