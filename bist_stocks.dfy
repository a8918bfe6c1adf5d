/**
  The stock list served by the BIST API: how one scanner response becomes the
  app's instrument records (`getAllStocks` in index.js).

  The scanner returns, per instrument, a positional array `d` whose columns
  follow the order asked for in the request. Each array becomes a fresh record
  with ten fields. Any failure while fetching or reshaping the response makes
  the whole result the empty list.

  The cell values are never computed on, only copied, so they are a type
  parameter `V`. Reading `d[k]` past the end of the array yields JavaScript's
  `undefined`, modelled as `None`; every positional field is therefore an
  `Option<V>`, and no row length is demanded of the caller.
*/
module BistStocks {
  import opened Wrappers

  /** The columns requested from the scanner, in the order it returns them. */
  const RequestedColumns: seq<string> :=
    ["name", "close", "change|1d", "high|1d", "low|1d", "description", "volume"]

  /** The constant presentation fields of every record. */
  const StockType: string := "stock"
  const StockIcon: string := "finance"
  const StockColor: string := "#34495E"

  /** One positional scanner row, the array `item.d`. */
  type Row<V> = seq<V>

  /**
    One entry of `data.data`, in the two shapes this model represents: an entry
    whose `d` is a JSON array, or an entry whose `d` is undefined or null (or
    that is itself undefined or null), on which reading `item.d` or `d[0]`
    throws. A `d` that is a string, number, boolean or object is not
    represented.
  */
  datatype Item<V> = Item(d: Row<V>) | NoRow

  /**
    The record built for one row. `kind` holds the value of the JavaScript key
    `type`, which is a reserved word here.
  */
  datatype Stock<V> = Stock(
    id: Option<V>,
    symbol: Option<V>,
    name: Option<V>,
    kind: string,
    price: Option<V>,
    change24h: Option<V>,
    high24: Option<V>,
    low24: Option<V>,
    icon: string,
    color: string)

  // ---------------------------------------------------------------------------
  // The column layout of the request

  /** The position at which column `column` appears in `columns`, if it does. */
  function IndexOf(columns: seq<string>, column: string): (r: Option<nat>)
    ensures r.Some? ==> r.value < |columns| && columns[r.value] == column
    ensures r.Some? ==> forall j :: 0 <= j < r.value ==> columns[j] != column
    ensures r.None? <==> column !in columns
  {
    if columns == [] then None
    else if columns[0] == column then Some(0)
    else match IndexOf(columns[1..], column)
      case None => None
      case Some(k) => Some(k + 1)
  }

  /** JavaScript's `d[k]` on an array: the cell, or `undefined` past the end. */
  function At<V>(d: Row<V>, k: nat): Option<V>
  {
    if k < |d| then Some(d[k]) else None
  }

  /**
    The cell of `d` under the requested column named `column`: the scanner puts
    each requested column at its position in the request.
  */
  function ColumnNamed<V>(d: Row<V>, column: string): Option<V>
  {
    match IndexOf(RequestedColumns, column)
    case None => None
    case Some(k) => At(d, k)
  }

  // ---------------------------------------------------------------------------
  // The normaliser

  /** The arrow function of `data.data.map`, applied to the array `d` of an item. */
  function Normalise<V>(d: Row<V>): Stock<V>
  {
    Stock(
      id := At(d, 0),
      symbol := At(d, 0),
      name := At(d, 5),
      kind := StockType,
      price := At(d, 1),
      change24h := At(d, 2),
      high24 := At(d, 3),
      low24 := At(d, 4),
      icon := StockIcon,
      color := StockColor)
  }

  /** The arrow function applied to one entry: `None` where it throws. */
  function FormatItem<V>(item: Item<V>): Option<Stock<V>>
  {
    match item
    case Item(d) => Some(Normalise(d))
    case NoRow => None
  }

  /** Every entry carries its array `d`, so no call of the arrow function throws. */
  ghost predicate AllRows<V>(items: seq<Item<V>>)
  {
    forall i :: 0 <= i < |items| ==> items[i].Item?
  }

  /**
    `data.data.map(...)`: one record per entry, in order, or `None` when the
    arrow function throws on some entry (which aborts the whole map).
  */
  function FormatAll<V>(items: seq<Item<V>>): (r: Option<seq<Stock<V>>>)
    ensures r.Some? <==> AllRows(items)
    ensures r.Some? ==> |r.value| == |items|
    ensures r.Some? ==> forall i :: 0 <= i < |items| ==> r.value[i] == Normalise(items[i].d)
  {
    if items == [] then Some([])
    else match (FormatItem(items[0]), FormatAll(items[1..]))
      case (Some(s), Some(rest)) => Some([s] + rest)
      case _ => None
  }

  /**
    `getAllStocks`, given the outcome of the scanner request: `Ok(items)` when
    `data.data` is the list `items`, `Err(e)` when the request failed or the
    body has no list `data.data`. Every failure becomes the empty list.
  */
  function GetAllStocks<V, E>(response: Result<seq<Item<V>>, E>): (r: seq<Stock<V>>)
    ensures response.Err? ==> r == []
    ensures response.Ok? && !AllRows(response.value) ==> r == []
    ensures response.Ok? && AllRows(response.value) ==>
      |r| == |response.value| &&
      forall i :: 0 <= i < |r| ==> r[i] == Normalise(response.value[i].d)
  {
    match response
    case Err(_) => []
    case Ok(items) =>
      match FormatAll(items)
      case None => []
      case Some(stocks) => stocks
  }

  // ---------------------------------------------------------------------------
  // What a record is made of

  /** The six cells a record was read from, in column order 0 to 5. */
  function Columns<V>(s: Stock<V>): seq<Option<V>>
  {
    [s.id, s.price, s.change24h, s.high24, s.low24, s.name]
  }

  /** The cells the arrow function reads from `d`: columns 0 to 5, as JavaScript reads them. */
  function ReadColumns<V>(d: Row<V>): seq<Option<V>>
  {
    [At(d, 0), At(d, 1), At(d, 2), At(d, 3), At(d, 4), At(d, 5)]
  }

  /** Cells read from an array: defined up to its length, `undefined` after it. */
  ghost predicate ReadPattern<V>(c: seq<Option<V>>)
  {
    forall i, j :: 0 <= i < j < |c| && c[j].Some? ==> c[i].Some?
  }

  /**
    A record that the normaliser can emit: `id` equals `symbol`, the constant
    fields hold their constants, and its cells follow the read pattern.
  */
  ghost predicate Conforms<V>(s: Stock<V>)
  {
    && s.id == s.symbol
    && s.kind == StockType
    && s.icon == StockIcon
    && s.color == StockColor
    && ReadPattern(Columns(s))
  }

  /** The defined cells at the front of `c`, as a row. */
  function DefinedPrefix<V>(c: seq<Option<V>>): (d: Row<V>)
    ensures |d| <= |c|
    ensures forall k :: 0 <= k < |d| ==> c[k] == Some(d[k])
    ensures |d| < |c| ==> c[|d|].None?
  {
    if c == [] || c[0].None? then [] else [c[0].value] + DefinedPrefix(c[1..])
  }

  // ---------------------------------------------------------------------------
  // Properties of one record

  /**
    Reading a record's defined cells back gives the row it was built from, cut
    after column 5: the partner of `ConformingIsNormalised`.
  */
  lemma ColumnsRoundTrip<V>(d: Row<V>)
    ensures DefinedPrefix(Columns(Normalise(d))) == d[..if |d| < 6 then |d| else 6]
  {
    var c := Columns(Normalise(d));
    var p := DefinedPrefix(c);
    var n := if |d| < 6 then |d| else 6;
    assert forall k :: 0 <= k < 6 ==> c[k] == At(d, k);
    assert |p| == n;
  }

  /** `id` and `symbol` are both column 0, `undefined` on an empty row. */
  lemma IdIsSymbol<V>(d: Row<V>)
    ensures Normalise(d).id == Normalise(d).symbol
    ensures |d| > 0 ==> Normalise(d).id == Some(d[0])
    ensures |d| == 0 ==> Normalise(d).id.None?
  {
  }

  /**
    Each positional field comes from the requested column of its name: `id` and
    `symbol` from "name", `name` from "description", `price` from "close",
    `change24h` from "change|1d", `high24` from "high|1d", `low24` from "low|1d".
  */
  lemma FieldsFollowRequestedColumns<V>(d: Row<V>)
    ensures Normalise(d).id == ColumnNamed(d, "name")
    ensures Normalise(d).symbol == ColumnNamed(d, "name")
    ensures Normalise(d).name == ColumnNamed(d, "description")
    ensures Normalise(d).price == ColumnNamed(d, "close")
    ensures Normalise(d).change24h == ColumnNamed(d, "change|1d")
    ensures Normalise(d).high24 == ColumnNamed(d, "high|1d")
    ensures Normalise(d).low24 == ColumnNamed(d, "low|1d")
  {
    assert IndexOf(RequestedColumns, "name") == Some(0);
    assert IndexOf(RequestedColumns, "close") == Some(1);
    assert IndexOf(RequestedColumns, "change|1d") == Some(2);
    assert IndexOf(RequestedColumns, "high|1d") == Some(3);
    assert IndexOf(RequestedColumns, "low|1d") == Some(4);
    assert IndexOf(RequestedColumns, "description") == Some(5);
  }

  /** The constant fields do not depend on the row. */
  lemma ConstantsIndependentOfRow<V>(d: Row<V>, d': Row<V>)
    ensures Normalise(d).kind == Normalise(d').kind == StockType
    ensures Normalise(d).icon == Normalise(d').icon == StockIcon
    ensures Normalise(d).color == Normalise(d').color == StockColor
  {
  }

  /** Two rows give the same record exactly when they agree on columns 0 to 5. */
  lemma SameRecordIffSameReadColumns<V>(d: Row<V>, d': Row<V>)
    ensures Normalise(d) == Normalise(d') <==> ReadColumns(d) == ReadColumns(d')
  {
  }

  /**
    The "volume" column is requested (at position 6) but never copied: changing
    it, or cutting the row after column 5, leaves the record unchanged.
  */
  lemma VolumeIgnored<V>(d: Row<V>, v: V)
    ensures IndexOf(RequestedColumns, "volume") == Some(6)
    ensures |d| > 6 ==> Normalise(d[6 := v]) == Normalise(d)
    ensures |d| > 6 ==> Normalise(d[..6]) == Normalise(d)
  {
  }

  /** Every record the normaliser builds conforms. */
  lemma NormaliseConforms<V>(d: Row<V>)
    ensures Conforms(Normalise(d))
  {
  }

  /** Every conforming record is built from some row: the one made of its defined cells. */
  lemma ConformingIsNormalised<V>(s: Stock<V>)
    requires Conforms(s)
    ensures Normalise(DefinedPrefix(Columns(s))) == s
  {
    var c := Columns(s);
    var d := DefinedPrefix(c);
    forall k | 0 <= k < 6
      ensures At(d, k) == c[k]
    {
      if k >= |d| {
        assert c[|d|].None?;
      }
    }
    assert ReadColumns(d) == c;
  }

  /** The records the normaliser can emit are exactly the conforming ones. */
  lemma NormaliseImage<V>(s: Stock<V>)
    ensures (exists d :: Normalise(d) == s) <==> Conforms(s)
  {
    if exists d :: Normalise(d) == s {
      var d :| Normalise(d) == s;
      NormaliseConforms(d);
    }
    if Conforms(s) {
      ConformingIsNormalised(s);
    }
  }

  // ---------------------------------------------------------------------------
  // Properties of the whole list

  /** Entries carrying identical rows give identical records. */
  lemma IdenticalRowsIdenticalRecords<V, E>(items: seq<Item<V>>, i: nat, j: nat)
    requires AllRows(items) && i < |items| && j < |items|
    requires items[i].d == items[j].d
    ensures GetAllStocks<V, E>(Ok(items))[i] == GetAllStocks<V, E>(Ok(items))[j]
  {
  }

  /**
    Failure becomes zero records: the result is empty exactly when the request
    failed, some entry has no array `d`, or the list itself is empty.
  */
  lemma EmptyIffFailure<V, E>(response: Result<seq<Item<V>>, E>)
    ensures GetAllStocks(response) == [] <==>
      response.Err? || !AllRows(response.value) || response.value == []
  {
  }

  /** Every record of every result is one the normaliser can emit from an array row. */
  lemma AllOutputsConform<V, E>(response: Result<seq<Item<V>>, E>)
    ensures forall s :: s in GetAllStocks(response) ==> Conforms(s)
  {
  }
}
