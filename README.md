# BIST stock list: the scanner row normaliser

This project models the one piece of logic in the BIST API server: `getAllStocks`
in `index.js`. It asks a market scanner for every common stock on Borsa Istanbul.
The scanner answers with a list `data.data`. Each entry of that list carries a
positional array `d`, whose columns come in the order the request asked for:
`name, close, change|1d, high|1d, low|1d, description, volume`. Each array is
mapped to a fresh record with ten fields:

- `id` and `symbol` come from column 0;
- `name` comes from column 5;
- `price`, `change24h`, `high24` and `low24` come from columns 1 to 4;
- `type`, `icon` and `color` are constants.

If the request fails, or the response cannot be reshaped, the `catch` block
returns the empty list.

The model is pure and sits in two modules:

- `Wrappers` (`wrappers.dfy`) holds `Option` and `Result`.
- `BistStocks` (`bist_stocks.dfy`) holds the model itself:
  - `Normalise` is the arrow function;
  - `FormatAll` is `data.data.map(...)`;
  - `GetAllStocks` adds the `try`/`catch`.

Modelling choices:

- Cell values are never computed on, only copied, so they are a type parameter `V`.
- In JavaScript, reading `d[k]` past the end of the array gives `undefined`.
  The model represents this with `Option`: every positional field of a record
  is an `Option<V>`, and `None` stands for `undefined`. The model demands no
  row length. A missing high or low is thus copied as `undefined`, like any
  other missing column.
- An entry of `data.data` whose `d` is `undefined` or `null`, or that is itself
  `undefined` or `null`, is `Item.NoRow`. Reading `item.d` or `d[0]` on it
  throws a `TypeError`, so the whole `map` aborts and the
  `catch` returns `[]`. The model keeps that behaviour.
- The scanner call is represented only by its outcome:
  - `Ok(items)` when `data.data` is the list `items`;
  - `Err(e)` when the request is rejected or `data.data` is not a list.

  The error type `E` is a parameter.
- The JavaScript key `type` is a reserved word in Dafny, so the record field is
  named `kind`.
- The column order of the request is `RequestedColumns`. `IndexOf` gives the
  position of a column in that list. `FieldsFollowRequestedColumns` ties each
  positional read to the column name the request gave it.

## Model

| member | source | states |
|---|---|---|
| `BistStocks.Normalise` | index.js:36-47 | no ensures of its own: builds the ten fields from the reads `At(d, 0)` to `At(d, 5)` (JavaScript's `d[k]`, `undefined` past the end) and the three constants; its properties are stated by the lemma rows below |
| `BistStocks.FormatItem` | index.js:34-37 | no ensures of its own: the arrow function on one entry, giving the record `Normalise(d)` for an array `d` and `None` (the thrown `TypeError`) for an entry whose `d` is nullish |
| `BistStocks.IndexOf` | index.js:24 | the position of a requested column is where that name first appears in the request's column list; no position when the name was not requested |
| `BistStocks.FormatAll` | index.js:34-48 | the map succeeds exactly when every entry carries its array `d`; it then returns one record per entry, the same count and order, and record i is built from row i |
| `BistStocks.GetAllStocks` | index.js:34-55 | a failed request gives `[]`; a response with an entry lacking `d` gives `[]` (the thrown error is caught); otherwise the result has one record per row, in order, record i being `Normalise` of row i |
| `BistStocks.EmptyIffFailure` | index.js:52-55 | the result is empty exactly when the request failed, some entry has no `d`, or the scanner returned no rows; zero records is the only failure signal |
| `BistStocks.IdenticalRowsIdenticalRecords` | index.js:34-48 | the mapping depends only on the row itself: two entries with identical arrays give identical records |
| `BistStocks.IdIsSymbol` | index.js:37-38 | `id` and `symbol` are equal; both are column 0, or `undefined` on an empty row |
| `BistStocks.FieldsFollowRequestedColumns` | index.js:24-44 | `id` and `symbol` are the "name" column. `name` is the "description" column, not "name". `price` is the "close" column. `change24h`, `high24` and `low24` are the one-day change, high and low columns. All are copied unchanged |
| `BistStocks.ConstantsIndependentOfRow` | index.js:40-46 | every record has `type` "stock", `icon` "finance" and `color` "#34495E", whatever its row contains |
| `BistStocks.VolumeIgnored` | index.js:24-47 | "volume" is requested at position 6, but changing it, or cutting the row after column 5, leaves the record unchanged |
| `BistStocks.SameRecordIffSameReadColumns` | index.js:35-47 | two rows give the same record if and only if they agree, cell by cell (`undefined` included), on columns 0 to 5 |
| `BistStocks.ColumnsRoundTrip` | index.js:36-47 | row to record to row: the defined cells read back from a record, in column order, are exactly the row it was built from, cut after column 5 (the partner of `ConformingIsNormalised`) |
| `BistStocks.NormaliseConforms` | index.js:36-47 | every record built has `id` equal to `symbol` and the three constants, and its cells are defined up to some column and `undefined` after it |
| `BistStocks.ConformingIsNormalised` | index.js:36-47 | every conforming record is the record built from the row made of its defined cells |
| `BistStocks.NormaliseImage` | index.js:36-47 | a record can come out of the normaliser for some array row if and only if it conforms |
| `BistStocks.AllOutputsConform` | index.js:34-55 | every record of every result built from array rows conforms |

## Left out

- The Express app, CORS middleware, the `PORT` lookup and `app.listen` (index.js:1-9, 65-70) are server plumbing.
- The `/api/bist` route handler (index.js:58-63) only logs and serialises. JSON serialisation, which drops keys whose value is `undefined`, is therefore not modelled.
- The `axios.post` call and its headers (index.js:29-31) are network I/O. They appear only as the `Ok`/`Err` outcome given to `GetAllStocks`. The asynchronous `Promise` is represented by its resolved value.
- The request body (index.js:17-27) is kept only as its column order (`RequestedColumns`). The filter, language, sort and `range: [0, 600]` are not modelled. The code never checks `range`, so the model does not bound the number of records.
- `console.log` and `console.error` output is logging.
- Cell values are copied and never computed on, so their numeric meaning as JavaScript floats is not modelled.
- A non-array `d` is not represented: `d` is modelled as a JSON array, or as nullish (which throws). In JavaScript a string `d` yields its characters, a number or boolean yields `undefined` for every column, and an object yields its properties `"0"` to `"5"`; such entries do not throw, and the records they give need not conform. `NormaliseImage`, `NormaliseConforms` and `AllOutputsConform` therefore hold only for entries whose `d` is an array.
- `data.data` being a non-array object that still has a `map` method is not modelled; only "a list" (`Ok`) or "an error" (`Err`) is.
- Each record having the ten listed fields and no others holds by construction: `Stock` is a single-constructor datatype with those ten fields. No lemma states it.
