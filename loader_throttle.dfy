/**
 * LoaderThrottle: a content provider over one table "main" of (_id, data) rows, reached through
 * content://com.example.android.apis.app.LoaderThrottle/main and .../main/<id>, and the list
 * fragment's "Populate" and "Clear" menu actions that fill and empty it.
 */
module LoaderThrottle {
  import opened Common
  import Decimal

  const AUTHORITY: string := "com.example.android.apis.app.LoaderThrottle"
  const TABLE_NAME: string := "main"
  const CONTENT_TYPE: string := "vnd.android.cursor.dir/vnd.example.api-demos-throttle"
  const CONTENT_ITEM_TYPE: string := "vnd.android.cursor.item/vnd.example.api-demos-throttle"
  const DEFAULT_SORT_ORDER: string := "data COLLATE LOCALIZED ASC"
  const COLUMN_NAME_DATA: string := "data"

  /** A content URI: its scheme, its authority and its non-empty path segments. */
  datatype Uri = Uri(scheme: string, authority: string, segments: seq<string>)

  /** `content://AUTHORITY/main`. */
  const CONTENT_URI: Uri := Uri("content", AUTHORITY, [TABLE_NAME])
  /** `content://AUTHORITY/main/`: the same path segments as CONTENT_URI. */
  const CONTENT_ID_URI_BASE: Uri := Uri("content", AUTHORITY, [TABLE_NAME])

  /** `ContentUris.withAppendedId`: one more path segment holding the id in decimal. */
  function WithAppendedId(base: Uri, id: nat): (u: Uri)
    ensures u.scheme == base.scheme && u.authority == base.authority
    ensures |u.segments| == |base.segments| + 1 && u.segments[..|base.segments|] == base.segments
    ensures Decimal.AllDigits(u.segments[|base.segments|])
  {
    base.(segments := base.segments + [Decimal.NatToString(id)])
  }

  /** What the provider's `UriMatcher` answers. */
  datatype Match = Main | MainId(id: nat, lastSegment: string) | NoMatch

  /** `mUriMatcher.match(uri)` for the patterns "main" (MAIN) and "main/#" (MAIN_ID). */
  function MatchUri(uri: Uri): (m: Match)
    ensures m == Main <==> uri.authority == AUTHORITY && uri.segments == [TABLE_NAME]
    ensures m.MainId? <==> uri.authority == AUTHORITY && |uri.segments| == 2
                           && uri.segments[0] == TABLE_NAME && Decimal.AllDigits(uri.segments[1])
    ensures m.MainId? ==> m.lastSegment == uri.segments[1] && m.id == Decimal.DigitsValue(uri.segments[1])
  {
    if uri.authority != AUTHORITY then NoMatch
    else if uri.segments == [TABLE_NAME] then Main
    else if |uri.segments| == 2 && uri.segments[0] == TABLE_NAME && Decimal.AllDigits(uri.segments[1]) then
      MainId(Decimal.DigitsValue(uri.segments[1]), uri.segments[1])
    else NoMatch
  }

  /** The URI returned for a new row matches MAIN_ID with that row's id. */
  lemma AppendedIdMatchesMainId(id: nat)
    ensures MatchUri(WithAppendedId(CONTENT_ID_URI_BASE, id)) == MainId(id, Decimal.NatToString(id))
  {
    Decimal.DigitsValueOfNatToString(id);
  }

  /** The exceptions the provider throws. */
  datatype Error = IllegalArgumentException | SQLException | NumberFormatException

  /** One more than Java's `Long.MAX_VALUE`. */
  const LONG_LIMIT: nat := 0x8000_0000_0000_0000

  datatype Result<T> = Ok(value: T) | Failure(error: Error)

  /** `ContentUris.parseId` on a MAIN_ID segment: `Long.parseLong`, which rejects values above `Long.MAX_VALUE`. */
  function ParseId(segment: string): (r: Result<nat>)
    requires Decimal.AllDigits(segment)
    ensures r.Ok? <==> Decimal.DigitsValue(segment) < LONG_LIMIT
    ensures r.Ok? ==> r.value == Decimal.DigitsValue(segment)
    ensures r.Failure? ==> r.error == NumberFormatException
  {
    var v := Decimal.DigitsValue(segment);
    if v < LONG_LIMIT then Ok(v) else Failure(NumberFormatException)
  }

  /** `parseId` reads back the id of every row URI `insert` can return (row ids are Java longs). */
  lemma ParseIdOfAppendedId(id: nat)
    requires id < LONG_LIMIT
    ensures ParseId(WithAppendedId(CONTENT_ID_URI_BASE, id).segments[1]) == Ok(id)
  {
    Decimal.DigitsValueOfNatToString(id);
  }

  /** Whether `delete` and `update` get past the URI: MAIN, or MAIN_ID with an id `parseId` accepts. */
  predicate IdParses(m: Match) {
    m == Main || (m.MainId? && m.id < LONG_LIMIT)
  }

  /** `getType`. */
  function GetType(uri: Uri): (r: Result<string>)
    ensures MatchUri(uri) == Main <==> r == Ok(CONTENT_TYPE)
    ensures MatchUri(uri).MainId? <==> r == Ok(CONTENT_ITEM_TYPE)
    ensures MatchUri(uri) == NoMatch <==> r == Failure(IllegalArgumentException)
  {
    match MatchUri(uri)
    case Main => Ok(CONTENT_TYPE)
    case MainId(_, _) => Ok(CONTENT_ITEM_TYPE)
    case NoMatch => Failure(IllegalArgumentException)
  }

  /** The table: each row's `_id` and its `data` text. */
  type Table = map<int, string>

  /** A where clause (with its arguments bound), as a condition on a row. */
  type Selection = (int, string) -> bool

  /**
   * A where clause whose `?` placeholders are still open: a condition on a row, given the
   * arguments bound to those placeholders, in order.
   */
  type Where = (seq<string>, int, string) -> bool

  /**
   * `_id=?` bound to a text argument: the column is an integer key, so SQLite compares the
   * integer a digit string denotes.
   */
  predicate IdArgMatches(arg: string, id: int) {
    Decimal.AllDigits(arg) && Decimal.DigitsValue(arg) == id
  }

  /**
   * The rows an SQLite query selects with `args` bound by position. For MAIN_ID the builder's
   * `_id=?` comes first in the where clause and takes the first argument; the caller's selection
   * takes the rest.
   */
  function BoundRows(table: Table, m: Match, selection: Option<Where>, args: seq<string>): (ids: set<int>)
    requires m != NoMatch
    ensures ids <= table.Keys
    ensures m.MainId? ==> forall id :: id in ids <==>
              id in table && |args| > 0 && IdArgMatches(args[0], id)
              && (selection.Some? ==> selection.value(args[1..], id, table[id]))
    ensures m == Main ==> forall id :: id in ids <==>
              id in table && (selection.Some? ==> selection.value(args, id, table[id]))
  {
    if m.MainId? then
      set id | id in table && |args| > 0 && IdArgMatches(args[0], id)
                 && (selection.Some? ==> selection.value(args[1..], id, table[id]))
    else
      set id | id in table && (selection.Some? ==> selection.value(args, id, table[id]))
  }

  /** The rows a request works on: the caller's where clause, narrowed to one id for MAIN_ID. */
  function Restrict(m: Match, where: Option<Selection>): Selection
    requires m != NoMatch
  {
    (id: int, data: string) =>
      (m.MainId? ==> id == m.id) && (where.Some? ==> where.value(id, data))
  }

  function SelectedIds(table: Table, sel: Selection): (ids: set<int>)
    ensures ids <= table.Keys
    ensures forall id :: id in table ==> (id in ids <==> sel(id, table[id]))
  {
    set id | id in table && sel(id, table[id])
  }

  /** The table without the given rows. */
  function Without(table: Table, ids: set<int>): (t: Table)
    ensures t.Keys == table.Keys - ids
    ensures forall id :: id in t ==> t[id] == table[id]
  {
    map id | id in table && id !in ids :: table[id]
  }

  /** The table with the given rows' data replaced (when the new values name the data column). */
  function WithData(table: Table, ids: set<int>, values: map<string, string>): (t: Table)
    ensures t.Keys == table.Keys
    ensures forall id :: id in table && id !in ids ==> t[id] == table[id]
    ensures forall id :: id in table && id in ids ==>
              t[id] == if COLUMN_NAME_DATA in values then values[COLUMN_NAME_DATA] else table[id]
  {
    map id | id in table :: if id in ids && COLUMN_NAME_DATA in values then values[COLUMN_NAME_DATA] else table[id]
  }

  /** After a delete, nothing the same selection would pick is left, and the count adds up. */
  lemma {:induction false} DeleteRemovesExactlySelection(table: Table, sel: Selection)
    ensures SelectedIds(Without(table, SelectedIds(table, sel)), sel) == {}
    ensures |Without(table, SelectedIds(table, sel))| + |SelectedIds(table, sel)| == |table|
  {
    var ids := SelectedIds(table, sel);
    var rest := Without(table, ids);
    assert table.Keys == rest.Keys + ids;
    assert rest.Keys * ids == {};
    assert |table.Keys| == |rest.Keys| + |ids| by {
      DisjointUnionSize(rest.Keys, ids);
    }
  }

  lemma {:induction false} DisjointUnionSize<T>(a: set<T>, b: set<T>)
    requires a * b == {}
    ensures |a + b| == |a| + |b|
    decreases |b|
  {
    if b != {} {
      var x :| x in b;
      DisjointUnionSize(a, b - {x});
      assert a + b == (a + (b - {x})) + {x};
    } else {
      assert a + b == a;
    }
  }

  /** The values `insert` writes: a copy of the caller's values, with `data=""` added only when absent. */
  function InsertValues(initial: Option<map<string, string>>): (v: map<string, string>)
    ensures COLUMN_NAME_DATA in v
    ensures initial.Some? ==> forall k :: k in initial.value ==> k in v && v[k] == initial.value[k]
    ensures (initial.None? || COLUMN_NAME_DATA !in initial.value) ==> v[COLUMN_NAME_DATA] == ""
    ensures v.Keys == (if initial.Some? then initial.value.Keys else {}) + {COLUMN_NAME_DATA}
  {
    var values := if initial.Some? then initial.value else map[];
    if COLUMN_NAME_DATA !in values then values[COLUMN_NAME_DATA := ""] else values
  }

  /** What `query` hands to the query builder. */
  datatype QueryPlan = QueryPlan(selectionArgs: Option<seq<string>>, sortOrder: string, rows: set<int>)

  /** `TextUtils.isEmpty`. */
  predicate IsEmpty(s: Option<string>) {
    s.None? || s.value == ""
  }

  /** `DatabaseUtils.appendSelectionArgs`. */
  function AppendSelectionArgs(original: Option<seq<string>>, extra: seq<string>): (r: seq<string>)
    ensures r == (if original.Some? then original.value else []) + extra
  {
    if original.None? || original.value == [] then extra else original.value + extra
  }

  /** The list fragment's item ids: `Menu.FIRST` and `Menu.FIRST + 1`. */
  const POPULATE_ID: int := 1
  const CLEAR_ID: int := 2

  /** The letters the populate task writes, "Z" first. */
  const LETTERS: nat := 26

  /** The data text of the i-th row the populate task inserts: "Data " and the letter 'Z' - i. */
  function PopulateText(i: nat): (s: string)
    requires i < LETTERS
    ensures |s| == 6 && s[..5] == "Data " && 'A' <= s[5] <= 'Z'
    ensures s[5] as int == 'Z' as int - i
  {
    "Data " + [('Z' as int - i) as char]
  }

  /** The data texts of the first n rows the populate task inserts. */
  function PopulateData(n: nat): (r: seq<string>)
    requires n <= LETTERS
    ensures |r| == n
    ensures forall i :: 0 <= i < n ==> r[i] == PopulateText(i)
  {
    if n == 0 then [] else PopulateData(n - 1) + [PopulateText(n - 1)]
  }

  /** No text is written twice: the letters go strictly down. */
  lemma PopulateTextsAreDistinct(i: nat, j: nat)
    requires i < LETTERS && j < LETTERS && i != j
    ensures PopulateText(i) != PopulateText(j)
  {
    assert PopulateText(i)[5] != PopulateText(j)[5];
  }

  /** The table after the populate task's first n inserts, each given its id by the engine. */
  function Populated(table: Table, engine: nat -> int, n: nat): Table
    requires n <= LETTERS
  {
    if n == 0 then table else Populated(table, engine, n - 1)[engine(n - 1) := PopulateText(n - 1)]
  }

  class ContentValues {
    var entries: map<string, string>

    constructor (entries: map<string, string>)
      ensures this.entries == entries
    {
      this.entries := entries;
    }
  }

  class SimpleProvider {
    var table: Table

    constructor ()
      ensures table == map[]
    {
      table := map[];
    }

    /**
     * `query`, with the URI's id bound to the builder's `_id=?`: the plan for MAIN or MAIN_ID,
     * unknown URIs rejected. The code as written binds the arguments in another order; see
     * `QueryAsWritten`.
     */
    function Query(uri: Uri, selection: Option<Where>, selectionArgs: Option<seq<string>>,
                   sortOrder: Option<string>): (r: Result<QueryPlan>)
      reads this
      ensures MatchUri(uri) == NoMatch <==> r == Failure(IllegalArgumentException)
      ensures r.Ok? ==> r.value.sortOrder == if IsEmpty(sortOrder) then DEFAULT_SORT_ORDER else sortOrder.value
      ensures MatchUri(uri) == Main ==> r.Ok? && r.value.selectionArgs == selectionArgs
      ensures MatchUri(uri).MainId? ==>
                && r.Ok?
                && r.value.selectionArgs
                   == Some([MatchUri(uri).lastSegment] + (if selectionArgs.Some? then selectionArgs.value else []))
      ensures r.Ok? ==> forall id :: id in r.value.rows <==>
                id in table && (MatchUri(uri).MainId? ==> id == MatchUri(uri).id)
                && (selection.Some? ==>
                      selection.value(if selectionArgs.Some? then selectionArgs.value else [], id, table[id]))
    {
      var m := MatchUri(uri);
      if m == NoMatch then Failure(IllegalArgumentException)
      else
        var caller := if selectionArgs.Some? then selectionArgs.value else [];
        var args := if m.MainId? then [m.lastSegment] + caller else caller;
        assert m.MainId? ==> args[1..] == caller;
        var order := if IsEmpty(sortOrder) then DEFAULT_SORT_ORDER else sortOrder.value;
        Ok(QueryPlan(if m.MainId? then Some(args) else selectionArgs, order, BoundRows(table, m, selection, args)))
    }

    /**
     * `insert`: only into MAIN; the row gets the caller's data (or "" when none is given) and the
     * id the database engine reports, `rowId`, which must be positive for the insert to succeed.
     */
    method Insert(uri: Uri, initialValues: ContentValues?, rowId: int) returns (r: Result<Uri>)
      modifies this
      ensures MatchUri(uri) != Main ==> r == Failure(IllegalArgumentException) && table == old(table)
      ensures MatchUri(uri) == Main && rowId <= 0 ==> r == Failure(SQLException) && table == old(table)
      ensures MatchUri(uri) == Main && rowId > 0 ==>
                r == Ok(WithAppendedId(CONTENT_ID_URI_BASE, rowId))
                && table == old(table)[rowId := InsertValues(
                     if initialValues == null then None else Some(initialValues.entries))[COLUMN_NAME_DATA]]
      ensures initialValues != null ==> initialValues.entries == old(initialValues.entries)
    {
      if MatchUri(uri) != Main {
        return Failure(IllegalArgumentException);
      }
      var values: ContentValues;
      if initialValues != null {
        values := new ContentValues(initialValues.entries);
      } else {
        values := new ContentValues(map[]);
      }
      if COLUMN_NAME_DATA !in values.entries {
        values.entries := values.entries[COLUMN_NAME_DATA := ""];
      }
      if rowId > 0 {
        table := table[rowId := values.entries[COLUMN_NAME_DATA]];
        return Ok(WithAppendedId(CONTENT_ID_URI_BASE, rowId));
      }
      return Failure(SQLException);
    }

    /** `delete`: remove the selected rows (one id at most for MAIN_ID) and count them. */
    method Delete(uri: Uri, where: Option<Selection>) returns (r: Result<nat>)
      modifies this
      ensures MatchUri(uri) == NoMatch ==> r == Failure(IllegalArgumentException) && table == old(table)
      ensures MatchUri(uri).MainId? && !IdParses(MatchUri(uri)) ==>
                r == Failure(NumberFormatException) && table == old(table)
      ensures IdParses(MatchUri(uri)) ==>
                var ids := SelectedIds(old(table), Restrict(MatchUri(uri), where));
                r == Ok(|ids|) && table == Without(old(table), ids)
    {
      var m := MatchUri(uri);
      if m == NoMatch {
        return Failure(IllegalArgumentException);
      }
      if m.MainId? && ParseId(m.lastSegment).Failure? {
        return Failure(NumberFormatException);
      }
      var ids := SelectedIds(table, Restrict(m, where));
      table := Without(table, ids);
      return Ok(|ids|);
    }

    /** `update`: give the selected rows the new data and count them; no other row changes. */
    method Update(uri: Uri, values: map<string, string>, where: Option<Selection>) returns (r: Result<nat>)
      modifies this
      ensures MatchUri(uri) == NoMatch ==> r == Failure(IllegalArgumentException) && table == old(table)
      ensures MatchUri(uri).MainId? && !IdParses(MatchUri(uri)) ==>
                r == Failure(NumberFormatException) && table == old(table)
      ensures IdParses(MatchUri(uri)) ==>
                var ids := SelectedIds(old(table), Restrict(MatchUri(uri), where));
                r == Ok(|ids|) && table == WithData(old(table), ids, values)
    {
      var m := MatchUri(uri);
      if m == NoMatch {
        return Failure(IllegalArgumentException);
      }
      if m.MainId? && ParseId(m.lastSegment).Failure? {
        return Failure(NumberFormatException);
      }
      var ids := SelectedIds(table, Restrict(m, where));
      table := WithData(table, ids, values);
      return Ok(|ids|);
    }
  }

  /** A delete on the URI of one row removes that row alone, whatever the where clause adds. */
  lemma {:induction false} DeleteByIdRemovesAtMostThatRow(table: Table, id: nat, where: Option<Selection>)
    ensures SelectedIds(table, Restrict(MatchUri(WithAppendedId(CONTENT_ID_URI_BASE, id)), where)) <= {id}
  {
    AppendedIdMatchesMainId(id);
  }

  /**
   * `query` as written: the URI's last segment is appended AFTER the caller's arguments, while the
   * builder's `_id=?` comes first in the where clause, so `_id=?` takes the caller's first argument
   * whenever there is one.
   */
  function QueryAsWritten(table: Table, uri: Uri, selection: Option<Where>, selectionArgs: Option<seq<string>>,
                          sortOrder: Option<string>): (r: Result<QueryPlan>)
    ensures MatchUri(uri) == NoMatch <==> r == Failure(IllegalArgumentException)
    ensures MatchUri(uri).MainId? && selectionArgs.Some? && selectionArgs.value != [] ==>
              && r.Ok?
              && r.value.selectionArgs == Some(selectionArgs.value + [MatchUri(uri).lastSegment])
              && forall id :: id in r.value.rows <==>
                   id in table && IdArgMatches(selectionArgs.value[0], id)
                   && (selection.Some? ==>
                         selection.value(selectionArgs.value[1..] + [MatchUri(uri).lastSegment], id, table[id]))
  {
    var m := MatchUri(uri);
    if m == NoMatch then Failure(IllegalArgumentException)
    else
      var args := if m.MainId? then AppendSelectionArgs(selectionArgs, [m.lastSegment])
                  else if selectionArgs.Some? then selectionArgs.value else [];
      assert m.MainId? && selectionArgs.Some? && selectionArgs.value != [] ==>
               args[0] == selectionArgs.value[0] && args[1..] == selectionArgs.value[1..] + [m.lastSegment];
      var order := if IsEmpty(sortOrder) then DEFAULT_SORT_ORDER else sortOrder.value;
      Ok(QueryPlan(if m.MainId? then Some(args) else selectionArgs, order, BoundRows(table, m, selection, args)))
  }

  /** Without caller arguments the code as written and the corrected binding select the same rows. */
  lemma QueryAsWrittenAgreesWithoutArgs(p: SimpleProvider, uri: Uri, selection: Option<Where>,
                                        selectionArgs: Option<seq<string>>, sortOrder: Option<string>)
    requires selectionArgs.None? || selectionArgs.value == []
    ensures QueryAsWritten(p.table, uri, selection, selectionArgs, sortOrder).Ok?
            ==> QueryAsWritten(p.table, uri, selection, selectionArgs, sortOrder).value.rows
                == p.Query(uri, selection, selectionArgs, sortOrder).value.rows
  {
    var m := MatchUri(uri);
    if m.MainId? {
      var args := AppendSelectionArgs(selectionArgs, [m.lastSegment]);
      assert args == [m.lastSegment] + [];
    }
  }

  /** `data != ?`, the caller's where clause in the example below. */
  function DataDiffers(args: seq<string>, id: int, data: string): bool {
    |args| > 0 && data != args[0]
  }

  /**
   * The code as written: `query(.../main/5, "data != ?", ["7"])` over rows 5 and 7 binds `_id`
   * to "7" and `data != ?` to "5", and so returns row 7, not row 5.
   */
  lemma QueryAsWrittenSelectsAnotherRow()
    ensures var uri := WithAppendedId(CONTENT_ID_URI_BASE, 5);
            QueryAsWritten(map[5 := "x", 7 := "y"], uri, Some(DataDiffers), Some(["7"]), None)
              == Ok(QueryPlan(Some(["7", "5"]), DEFAULT_SORT_ORDER, {7}))
  {
    var uri := WithAppendedId(CONTENT_ID_URI_BASE, 5);
    var table := map[5 := "x", 7 := "y"];
    AppendedIdMatchesMainId(5);
    assert Decimal.NatToString(5) == "5";
    assert MatchUri(uri) == MainId(5, "5");
    assert IdArgMatches("7", 7) && !IdArgMatches("7", 5);
    var r := QueryAsWritten(table, uri, Some(DataDiffers), Some(["7"]), None);
    assert ["7"][1..] + ["5"] == ["5"];
    assert AppendSelectionArgs(Some(["7"]), ["5"]) == ["7"] + ["5"] == ["7", "5"];
    assert r.Ok? && r.value.selectionArgs == Some(["7", "5"]);
    assert 7 in r.value.rows && 5 !in r.value.rows;
    assert r.value.rows == {7};
  }

  /** With the corrected binding, a query on a row's URI selects at most that row, whatever the arguments. */
  lemma QueryByIdSelectsAtMostThatRow(p: SimpleProvider, id: nat, selection: Option<Where>,
                                      selectionArgs: Option<seq<string>>, sortOrder: Option<string>)
    ensures var r := p.Query(WithAppendedId(CONTENT_ID_URI_BASE, id), selection, selectionArgs, sortOrder);
            r.Ok? && r.value.rows <= {id}
  {
    AppendedIdMatchesMainId(id);
  }

  /** The populate task: `AsyncTask.cancel(false)` only raises its flag. */
  class PopulateTask {
    var cancelled: bool
    var started: bool

    constructor ()
      ensures !cancelled && !started
    {
      cancelled := false;
      started := false;
    }

    method Cancel()
      modifies this
      ensures cancelled && started == old(started)
    {
      cancelled := true;
    }

    method Execute()
      modifies this
      ensures started && cancelled == old(cancelled)
    {
      started := true;
    }

    /** One insert of the loop: the i-th text into MAIN, under the id the database reports. */
    static method InsertText(cr: SimpleProvider, i: nat, rowId: int) returns (ok: bool)
      requires i < LETTERS
      modifies cr
      ensures ok <==> rowId > 0
      ensures cr.table == if ok then old(cr.table)[rowId := PopulateText(i)] else old(cr.table)
    {
      var c := ('Z' as int - i) as char;
      var values := new ContentValues(map[COLUMN_NAME_DATA := "Data " + [c]]);
      assert MatchUri(CONTENT_URI) == Main;
      var r := cr.Insert(CONTENT_URI, values, rowId);
      ok := r.Ok?;
    }

    /**
     * `doInBackground`: insert "Data Z" down to "Data A" into MAIN, checking for cancellation
     * before each one. `cancelAfter` is how many checks find the task not (yet) cancelled, and
     * `engine(i)` the row id the database reports for the i-th insert; an insert that fails ends
     * the task with the SQLException `insert` throws, which `doInBackground` does not catch.
     * Returns the texts inserted, in order, and the exception that ended the task, if any.
     */
    method DoInBackground(cr: SimpleProvider, cancelAfter: nat, engine: nat -> int)
      returns (inserted: seq<string>, thrown: Option<Error>)
      modifies cr
      ensures |inserted| <= LETTERS && inserted == PopulateData(|inserted|)
      ensures cancelled || |inserted| <= cancelAfter
      ensures forall i :: 0 <= i < |inserted| ==> engine(i) > 0
      ensures thrown.Some? <==> |inserted| < LETTERS && !cancelled && |inserted| < cancelAfter
      ensures thrown.Some? ==> thrown == Some(SQLException) && engine(|inserted|) <= 0
      ensures cancelled ==> inserted == []
      ensures cr.table == Populated(old(cr.table), engine, |inserted|)
    {
      inserted := [];
      thrown := None;
      var i: nat := 0;
      while i < LETTERS
        invariant i <= LETTERS && |inserted| == i && inserted == PopulateData(i)
        invariant cancelled ==> i == 0
        invariant i <= cancelAfter
        invariant forall k :: 0 <= k < i ==> engine(k) > 0
        invariant cr.table == Populated(old(cr.table), engine, i)
        invariant thrown == None
      {
        if cancelled || i >= cancelAfter {
          break;
        }
        var ok := InsertText(cr, i, engine(i));
        if !ok {
          thrown := Some(SQLException);
          break;
        }
        assert PopulateData(i + 1) == inserted + [PopulateText(i)];
        inserted := inserted + [PopulateText(i)];
        i := i + 1;
      }
    }
  }

  class ThrottledLoaderListFragment {
    const cr: SimpleProvider
    /** `mPopulatingTask`. */
    var populatingTask: PopulateTask?

    constructor (cr: SimpleProvider)
      ensures this.cr == cr && populatingTask == null
    {
      this.cr := cr;
      populatingTask := null;
    }

    /**
     * `onOptionsItemSelected`: "Populate" cancels any running task and starts a new one;
     * "Clear" cancels and forgets it and deletes every row; anything else is not handled here.
     */
    method OnOptionsItemSelected(itemId: int) returns (handled: bool)
      modifies this, populatingTask, cr
      ensures handled <==> itemId == POPULATE_ID || itemId == CLEAR_ID
      ensures old(populatingTask) != null && handled ==> old(populatingTask).cancelled
      ensures itemId == POPULATE_ID ==>
                populatingTask != null && fresh(populatingTask) && populatingTask.started
                && !populatingTask.cancelled && cr.table == old(cr.table)
      ensures itemId == CLEAR_ID ==> populatingTask == null && cr.table == map[]
      ensures !handled ==> populatingTask == old(populatingTask) && cr.table == old(cr.table)
    {
      if itemId == POPULATE_ID {
        if populatingTask != null {
          populatingTask.Cancel();
        }
        populatingTask := new PopulateTask();
        populatingTask.Execute();
        return true;
      } else if itemId == CLEAR_ID {
        if populatingTask != null {
          populatingTask.Cancel();
          populatingTask := null;
        }
        var _ := cr.Delete(CONTENT_URI, None);
        return true;
      }
      return false;
    }
  }
}
