# Reims real-estate dashboard: the row pipeline

A Dafny model of the data path of `app.py`, the Streamlit dashboard of
real-estate sales in Reims. The script downloads a table of transactions
(year, property type, address columns, latitude and longitude, prices). It
drops the rows without a latitude. It keeps the rows of the selected years
whose type is "Appartement" or "Maison", whatever the type selection. It
builds the price map from those rows: a marker cluster with one marker per
row, whose tooltip is the row's address. It centres the map on the user's
point of interest when one is given. It then filters the rows again by the
selected property types and shows the first 100 of them in a table.

Modules, one per step of the pipeline:

- `Selection` (selection.dfy): order-preserving selection by a row predicate
  (pandas boolean-mask indexing) and `head(n)`. Holds the soundness,
  completeness, order and composition lemmas.
- `Transactions` (transactions.dfy): the `Transaction` record, the cleaning
  step, the year/type filter, `load_data` and the 100-row preview.
- `Decimal` (decimal.dfy): Python's `str` of an integer and its inverse.
- `Markers` (markers.dfy): the address text, the map markers, and the
  `MarkerCluster` object that the marker loop appends to in place.
- `MapCentre` (map_centre.dfy): the choice between the user's point and the
  default centre.
- `Dashboard` (dashboard.dfy): the script's sequence of steps, end to end.
- `Wrappers` (wrappers.dfy): `Option`, used for null cells.

What the code does, and the model with it:

- Cleaning looks only at `Latitude`. A row with a null `Longitude` stays in
  the table (`Transactions.CleanIgnoresLongitude`).
- The point of interest is used only when both of its coordinates are
  non-zero. A point with one zero coordinate gives the default centre
  (`MapCentre.OneZeroCoordinateUsesDefault`).
- The property types are "Appartement" and "Maison".
- The map markers are built from the rows of the selected years whose type is
  "Appartement" or "Maison", whatever the type selection. The type selection
  affects only the table.

## Model

| member | source | states |
|---|---|---|
| `Selection.Keep` | app.py:32-34 | a mask selection keeps at most the input's rows, and each kept row is an input row that satisfies the mask |
| `Selection.KeepSelectsAll` | app.py:32-34 | the kept rows are exactly the rows that satisfy the mask, taken at strictly increasing input positions, so every satisfying row appears and input order is kept |
| `Selection.KeepKeepsMatches` | app.py:32-34 | every row that satisfies the mask is in the selection |
| `Selection.KeepKeep` | app.py:103-104 | selecting by one mask and then by another is the same as selecting once by their conjunction |
| `Selection.Head` | app.py:108 | `head(n)` is a prefix of the frame, of length min(n, number of rows) |
| `Transactions.Clean` | app.py:32-33 | after cleaning, no row has a null latitude; the result has no more rows than the input, all of them come from the input, and every input row with a latitude is in it |
| `Transactions.CleanSelectsLocatedRows` | app.py:32-33 | the cleaned table is every input row with a non-null latitude, in input order |
| `Transactions.CleanIgnoresLongitude` | app.py:32-33 | every input row with a latitude is in the cleaned table, whatever its longitude, null included |
| `Transactions.RowFilter` | app.py:34 | every kept row is an input row with a selected year and a selected property type, every such input row is kept, and there are no more rows than in the input |
| `Transactions.RowFilterSelectsMatches` | app.py:34 | every input row with a selected year and type is kept, at its input position and in input order |
| `Transactions.RowFilterEmptySelection` | app.py:103-104 | an empty year selection or an empty type selection gives the empty table, not an error |
| `Transactions.RefilterIsIntersection` | app.py:103-104 | filtering the (years, types1) result again by (years, types2) equals one filter by (years, types1 ∩ types2) |
| `Transactions.RefilterSelectedTypes` | app.py:41-48 | the types are selected from the same options the table was loaded with, so the second filter equals one filter by the selected years and types |
| `Transactions.LoadData` | app.py:28-35 | `load_data` returns `df0`, exactly the input rows with a latitude, and `df`, exactly the rows of `df0` with a selected year and type |
| `Transactions.LoadDataKeepsOrder` | app.py:32-34 | `df0` holds the located input rows at increasing input positions, and `df` the matching rows of `df0` at increasing positions |
| `Transactions.Preview` | app.py:108 | the table preview is a prefix of the selected rows of length min(100, number of rows) |
| `Decimal.NatText` | app.py:78 | the decimal text of a natural number is non-empty digits with no leading zero |
| `Decimal.DecimalText` | app.py:78 | `str(int)` is non-empty, made of digits and '-', and starts with '-' exactly for negative numbers |
| `Decimal.ParseDecimalText` | app.py:78 | reading back the decimal text of an integer gives that integer |
| `Markers.NumberText` | app.py:77-80 | the street-number text is "" exactly when the number is missing, and otherwise reads back to the number |
| `Markers.Address` | app.py:77-82 | the address opens with ", " exactly when the street number is missing, otherwise with the number's decimal text followed by ", ", and it ends with the country |
| `Markers.AddressNumberRoundTrip` | app.py:77-82 | the street number, or its absence, can be read back from the address text |
| `Markers.MarkersFollowRows` | app.py:76-91 | `MarkersOf`, built from `RowMarker`, gives one marker per row, in row order, at that row's latitude and longitude, whose tooltip is that row's address |
| `Markers.MarkerCluster.constructor` | app.py:74 | a new marker cluster is empty |
| `Markers.MarkerCluster.Add` | app.py:90-91 | `add_to(cluster)` appends the marker to the cluster |
| `Markers.AddRowMarkers` | app.py:76-91 | the loop appends exactly the rows' markers, in row order, to the cluster's existing contents |
| `MapCentre.ChooseMapView` | app.py:66-72 | the user's point is the centre, with exactly one extra marker, when both coordinates are non-zero; otherwise the centre is (49.258329, 4.031696) at zoom 13 with no extra marker |
| `MapCentre.UnknownAddressUsesDefault` | app.py:51-72 | `SelectedPoint` gives (0, 0) when the user answers that the address is unknown, so the map uses the default centre and has no extra marker |
| `MapCentre.OneZeroCoordinateUsesDefault` | app.py:66 | a point with one zero coordinate is ignored in favour of the default centre |
| `Dashboard.RunDashboard` | app.py:38-108 | the cluster holds the markers of the cleaned rows of the selected years whose type is "Appartement" or "Maison"; the table rows are the cleaned rows of the selected years and types; the preview is its first min(100, n) rows |

## Left out

- Fetching the CSV over HTTP, `pd.read_csv` and deleting the index column (app.py:29-31): network I/O and a foreign library. The raw table is an input sequence.
- `@st.cache` (app.py:27): framework memoisation with no observable logic.
- Widgets, headers and markdown (app.py:17-24, 38-62, 105-107). The sidebar values are parameters of `Dashboard.RunDashboard`. The "Oui"/"Non" answer is a boolean.
- The folium map object, `HeatMap` and `folium_static` (app.py:67-74, 92-100): rendering. The markers are kept as plain records. The heat layer and its maximum weight are not modelled.
- The popup HTML (app.py:83-89): it formats floats with `round(..., 2)`. So the surface, property value and price per square metre columns are not in the `Transaction` record.
- The per-year quartile, median and mean table and its plot (app.py:118-147): floating-point statistics inside pandas.
- The seaborn count plot and the plotly box plots (app.py:111-116, 151-168): the counting happens inside the chart libraries.
- `Transaction.streetNumber` is an optional integer. The model does not cover `int()` truncating a fractional float or failing on non-numeric text. Either way the outcome is "no number" or a whole number.
- Text columns hold the text that `str()` gives for the cell. How pandas renders floats, or a null text cell as "nan", is not modelled.
- Cleaning removes rows by index label (`drop(nan_rows.index)`). The model assumes the default, unique row labels that `read_csv` gives. With those labels this removes exactly the null-latitude rows.
- folium's validation of marker and heat-map coordinates, and any error it raises for a null longitude, are not modelled: a marker simply carries the row's longitude as an optional value.
- Coordinates are treated as opaque reals. Comparing them with zero is the only arithmetic done on them.
