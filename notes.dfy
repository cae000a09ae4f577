/** The notes data layer: turns backend rows into notes, and notes into
    backend writes. The backend is an abstract input, a function from the
    query this layer builds to the reply it gets back; whether a backend is
    configured at all is a boolean input. */
module Notes {

  datatype Option<T> = None | Some(value: T)

  /** A note as the rest of the application sees it. */
  datatype Note = Note(id: Option<string>, quote: string, created_at: Option<string>)

  /** A row as the backend returns it. `fields` holds the other selected
      columns by name, each as its value's string form; a column that is
      missing from the row, or null in it, is absent from `fields`. */
  datatype Row = Row(id: Option<string>, fields: map<string, string>, created_at: Option<string>)

  /** The table and the column that hold the notes. */
  datatype Config = Config(table: string, column: string)

  const DefaultTable: string := "notes"
  const DefaultColumn: string := "quote"
  const DefaultFetchLimit: int := 50

  /** The two settings fall back to their defaults only when unset
      (`??` keeps an empty string). */
  function Configure(envTable: Option<string>, envColumn: Option<string>): (c: Config)
    ensures envTable.None? ==> c.table == "notes"
    ensures envColumn.None? ==> c.column == "quote"
    ensures envTable.Some? ==> c.table == envTable.value
    ensures envColumn.Some? ==> c.column == envColumn.value
  {
    Config(if envTable.Some? then envTable.value else DefaultTable,
           if envColumn.Some? then envColumn.value else DefaultColumn)
  }

  /** `select(id, <column>, created_at)` on `table`, ordered by `orderBy`
      (descending when `descending`), at most `limit` rows. */
  datatype SelectQuery = SelectQuery(table: string, columns: seq<string>, orderBy: string,
                                     descending: bool, limit: int)

  /** `insert(rows)` on `table`, reading back `columns` of the single row. */
  datatype InsertQuery = InsertQuery(table: string, rows: seq<map<string, string>>,
                                     columns: seq<string>, single: bool)

  /** A select answers with an error, or with data that may be null. */
  datatype FetchReply = FetchFailed | FetchRows(data: Option<seq<Row>>)

  /** An insert answers with an error, or with the inserted row. */
  datatype InsertReply = InsertFailed | Inserted(row: Row)

  /** The columns both queries read back: `id, <column>, created_at`. */
  function Columns(cfg: Config): seq<string>
  {
    ["id", cfg.column, "created_at"]
  }

  /** The query `fetchNotes` sends; `None` when no backend is configured,
      in which case the client is never touched. */
  function FetchQuery(hasBackend: bool, cfg: Config, limit: int := DefaultFetchLimit): (q: Option<SelectQuery>)
    ensures q.None? <==> !hasBackend
    ensures q.Some? ==> q.value.table == cfg.table && q.value.columns == Columns(cfg)
    ensures q.Some? ==> q.value.orderBy == "created_at" && q.value.descending && q.value.limit == limit
  {
    if hasBackend then Some(SelectQuery(cfg.table, Columns(cfg), "created_at", true, limit)) else None
  }

  /** The write `createNote` sends; `None` when no backend is configured.
      It inserts exactly one row whose only key is the configured column. */
  function InsertQueryFor(hasBackend: bool, cfg: Config, quote: string): (q: Option<InsertQuery>)
    ensures q.None? <==> !hasBackend
    ensures q.Some? ==> q.value.table == cfg.table && q.value.columns == Columns(cfg) && q.value.single
    ensures q.Some? ==> |q.value.rows| == 1 && q.value.rows[0].Keys == {cfg.column}
                        && q.value.rows[0][cfg.column] == quote
  {
    if hasBackend then Some(InsertQuery(cfg.table, [map[cfg.column := quote]], Columns(cfg), true)) else None
  }

  /** The row-to-note mapping: `id` and `created_at` are copied, and the
      quote is the column's value, or the empty string when it is missing. */
  function ToNote(cfg: Config, row: Row): (n: Note)
    ensures n.id == row.id && n.created_at == row.created_at
    ensures cfg.column !in row.fields ==> n.quote == ""
    ensures cfg.column in row.fields ==> n.quote == row.fields[cfg.column]
  {
    Note(row.id, if cfg.column in row.fields then row.fields[cfg.column] else "", row.created_at)
  }

  function MapRows(cfg: Config, rows: seq<Row>): (ns: seq<Note>)
    ensures |ns| == |rows|
    ensures forall i :: 0 <= i < |rows| ==> ns[i] == ToNote(cfg, rows[i])
  {
    if rows == [] then [] else [ToNote(cfg, rows[0])] + MapRows(cfg, rows[1..])
  }

  /** `a` is `b` with some elements left out, the rest in their order. */
  ghost predicate IsSubsequence<T>(a: seq<T>, b: seq<T>)
  {
    a == [] || (b != [] && ((a[0] == b[0] && IsSubsequence(a[1..], b[1..])) || IsSubsequence(a, b[1..])))
  }

  /** The `filter` step: keeps the notes with a non-empty quote, in order. */
  function KeepQuoted(ns: seq<Note>): (r: seq<Note>)
    ensures forall n :: n in r <==> n in ns && n.quote != ""
    ensures IsSubsequence(r, ns)
    ensures |r| <= |ns|
  {
    if ns == [] then []
    else if ns[0].quote != "" then [ns[0]] + KeepQuoted(ns[1..])
    else KeepQuoted(ns[1..])
  }

  /** The filter keeps every copy of a quoted note, so a note with a
      non-empty quote occurs as often in the result as in the input, and
      a note with an empty quote not at all. */
  lemma {:induction false} KeepQuotedCounts(ns: seq<Note>)
    ensures forall n :: multiset(KeepQuoted(ns))[n] == if n.quote != "" then multiset(ns)[n] else 0
  {
    if ns != [] {
      KeepQuotedCounts(ns[1..]);
      assert ns == [ns[0]] + ns[1..];
      assert multiset(ns) == multiset{ns[0]} + multiset(ns[1..]);
      if ns[0].quote != "" {
        assert KeepQuoted(ns) == [ns[0]] + KeepQuoted(ns[1..]);
        assert multiset(KeepQuoted(ns)) == multiset{ns[0]} + multiset(KeepQuoted(ns[1..]));
      } else {
        assert KeepQuoted(ns) == KeepQuoted(ns[1..]);
      }
    }
  }

  /** The rows a fetch reply carries (`data ?? []`). */
  function RowsOf(reply: FetchReply): (rows: seq<Row>)
    ensures reply.FetchFailed? ==> rows == []
    ensures reply.FetchRows? && reply.data.None? ==> rows == []
    ensures reply.FetchRows? && reply.data.Some? ==> rows == reply.data.value
  {
    if reply.FetchRows? && reply.data.Some? then reply.data.value else []
  }

  /** `fetchNotes(limit)`. Without a backend, or on a backend error, the
      result is empty; otherwise it is the mapped rows with the empty quotes
      dropped, in the backend's order. */
  function FetchNotes(hasBackend: bool, cfg: Config, limit: int := DefaultFetchLimit, backend: SelectQuery -> FetchReply): (r: seq<Note>)
    ensures !hasBackend ==> r == []
    ensures hasBackend && backend(FetchQuery(true, cfg, limit).value).FetchFailed? ==> r == []
    ensures forall n :: n in r ==> n.quote != ""
    ensures hasBackend ==> IsSubsequence(r, MapRows(cfg, RowsOf(backend(FetchQuery(true, cfg, limit).value))))
    ensures hasBackend ==> |r| <= |RowsOf(backend(FetchQuery(true, cfg, limit).value))|
  {
    match FetchQuery(hasBackend, cfg, limit)
    case None => []
    case Some(q) =>
      match backend(q)
      case FetchFailed => []
      case FetchRows(_) => KeepQuoted(MapRows(cfg, RowsOf(backend(q))))
  }

  /** `createNote(quote)`. Without a backend, or on a backend error, the
      result is absent; otherwise it is the inserted row mapped to a note,
      which is not filtered, so its quote may be empty. */
  function CreateNote(hasBackend: bool, cfg: Config, quote: string, backend: InsertQuery -> InsertReply): (r: Option<Note>)
    ensures !hasBackend ==> r == None
    ensures hasBackend ==> var reply := backend(InsertQueryFor(true, cfg, quote).value);
                           r == if reply.InsertFailed? then None else Some(ToNote(cfg, reply.row))
  {
    match InsertQueryFor(hasBackend, cfg, quote)
    case None => None
    case Some(q) =>
      match backend(q)
      case InsertFailed => None
      case Inserted(row) => Some(ToNote(cfg, row))
  }

  /** Every pair of notes, earlier before later, is related by `notAfter`
      on their `created_at` values. */
  ghost predicate InOrder(ns: seq<Note>, notAfter: (Option<string>, Option<string>) -> bool)
  {
    forall i, j :: 0 <= i < j < |ns| ==> notAfter(ns[i].created_at, ns[j].created_at)
  }

  ghost predicate RowsInOrder(rows: seq<Row>, notAfter: (Option<string>, Option<string>) -> bool)
  {
    forall i, j :: 0 <= i < j < |rows| ==> notAfter(rows[i].created_at, rows[j].created_at)
  }

  lemma {:induction false} SubsequenceMembers<T>(a: seq<T>, b: seq<T>)
    requires IsSubsequence(a, b)
    ensures forall x :: x in a ==> x in b
  {
    if a != [] {
      if a[0] == b[0] && IsSubsequence(a[1..], b[1..]) {
        SubsequenceMembers(a[1..], b[1..]);
        assert forall x :: x in a ==> x == a[0] || x in a[1..];
      } else {
        SubsequenceMembers(a, b[1..]);
      }
    }
  }

  /** Leaving notes out never reorders the ones that stay. */
  lemma {:induction false} SubsequenceKeepsOrder(a: seq<Note>, b: seq<Note>, notAfter: (Option<string>, Option<string>) -> bool)
    requires IsSubsequence(a, b) && InOrder(b, notAfter)
    ensures InOrder(a, notAfter)
  {
    if a != [] {
      assert InOrder(b[1..], notAfter) by {
        forall i, j | 0 <= i < j < |b[1..]|
          ensures notAfter(b[1..][i].created_at, b[1..][j].created_at)
        {
          assert b[1..][i] == b[i + 1] && b[1..][j] == b[j + 1];
        }
      }
      if a[0] == b[0] && IsSubsequence(a[1..], b[1..]) {
        SubsequenceKeepsOrder(a[1..], b[1..], notAfter);
        SubsequenceMembers(a[1..], b[1..]);
        forall i, j | 0 <= i < j < |a| ensures notAfter(a[i].created_at, a[j].created_at) {
          if i == 0 {
            assert a[j] in a[1..] by { assert a[j] == a[1..][j - 1]; }
            var m :| 0 <= m < |b[1..]| && b[1..][m] == a[j];
            assert b[m + 1] == a[j];
          } else {
            assert a[i] == a[1..][i - 1] && a[j] == a[1..][j - 1];
          }
        }
      } else {
        SubsequenceKeepsOrder(a, b[1..], notAfter);
      }
    }
  }

  /** When the backend returns its rows newest first (or in any other
      order on `created_at`), the fetched notes keep that order. */
  lemma FetchKeepsBackendOrder(cfg: Config, limit: int, backend: SelectQuery -> FetchReply,
                               notAfter: (Option<string>, Option<string>) -> bool)
    requires RowsInOrder(RowsOf(backend(FetchQuery(true, cfg, limit).value)), notAfter)
    ensures InOrder(FetchNotes(true, cfg, limit, backend), notAfter)
  {
    var rows := RowsOf(backend(FetchQuery(true, cfg, limit).value));
    var mapped := MapRows(cfg, rows);
    assert InOrder(mapped, notAfter);
    SubsequenceKeepsOrder(FetchNotes(true, cfg, limit, backend), mapped, notAfter);
  }

  /** When the backend honours the query's limit, so does the fetch. */
  lemma FetchWithinLimit(hasBackend: bool, cfg: Config, limit: int, backend: SelectQuery -> FetchReply)
    requires hasBackend ==> var q := FetchQuery(true, cfg, limit).value; |RowsOf(backend(q))| <= q.limit
    ensures |FetchNotes(hasBackend, cfg, limit, backend)| <= if hasBackend then limit else 0
  {
  }

  /** A fetched note is exactly a row whose configured column is present and
      non-empty, mapped to a note: a row with the column missing or null
      never shows up, and every row with a non-empty quote does. */
  lemma FetchedNotesAreQuotedRows(cfg: Config, limit: int, backend: SelectQuery -> FetchReply, n: Note)
    requires backend(FetchQuery(true, cfg, limit).value).FetchRows?
    ensures n in FetchNotes(true, cfg, limit, backend) <==>
            exists row :: row in RowsOf(backend(FetchQuery(true, cfg, limit).value))
                          && cfg.column in row.fields && row.fields[cfg.column] != "" && n == ToNote(cfg, row)
    ensures multiset(FetchNotes(true, cfg, limit, backend))[n] ==
            if n.quote != "" then multiset(MapRows(cfg, RowsOf(backend(FetchQuery(true, cfg, limit).value))))[n] else 0
  {
    var rows := RowsOf(backend(FetchQuery(true, cfg, limit).value));
    var mapped := MapRows(cfg, rows);
    if n in FetchNotes(true, cfg, limit, backend) {
      var i :| 0 <= i < |mapped| && mapped[i] == n;
      assert rows[i] in rows;
    }
    KeepQuotedCounts(mapped);
  }

  /** When the backend stores the payload it was sent and echoes that row
      back, the created note carries the quote that was sent. */
  lemma CreateEchoesQuote(cfg: Config, quote: string, backend: InsertQuery -> InsertReply)
    requires var q := InsertQueryFor(true, cfg, quote).value;
             backend(q).Inserted? && backend(q).row.fields == q.rows[0]
    ensures var created := CreateNote(true, cfg, quote, backend);
            created.Some? && created.value.quote == quote
            && created.value.id == backend(InsertQueryFor(true, cfg, quote).value).row.id
  {
  }
}
