/** The file table and its per-user model: create, find, update, delete and clear, and the
    file-list query that filters by name and category and sorts by a chosen column. */
module Files {
  import opened Common
  import opened Sorting

  /** One row of the files table. */
  datatype FileRow = FileRow(
    id: string,
    userId: string,
    name: string,
    url: string,
    size: nat,
    fileType: string,
    createdAt: int)

  /** The arguments of `create`. */
  datatype NewFile = NewFile(name: string, url: string, size: nat, fileType: string)

  /** The fields `update` may set; absent ones are kept. */
  datatype FilePatch = FilePatch(name: Option<string>, size: Option<nat>)

  /** The tabs of the file manager, each a MIME-type prefix (`All` selects every file). */
  datatype FilesTab = All | Audios | Documents | Images | Videos | Websites

  datatype SortType = Asc | Desc

  /** The columns a file list can be sorted by. */
  datatype SortKey = ByCreatedAt | ByName | BySize

  /** The arguments of `query`, every one optional. */
  datatype QueryParams = QueryParams(
    q: Option<string>,
    category: Option<FilesTab>,
    sorter: Option<string>,
    sortType: Option<SortType>)

  /** No filter and the default order. */
  const NoParams := QueryParams(None, None, None, None)

  predicate Owned(row: FileRow, owner: string, id: string) {
    row.id == id && row.userId == owner
  }

  predicate DistinctIds(rows: seq<FileRow>) {
    forall i, j :: 0 <= i < j < |rows| ==> rows[i].id != rows[j].id
  }

  // ---------------------------------------------------------------------------------------
  // Filters

  /** The type prefix of a tab. */
  function TypePrefix(tab: FilesTab): string {
    match tab
    case All => ""
    case Audios => "audio"
    case Documents => "application"
    case Images => "image"
    case Videos => "video"
    case Websites => "text/html"
  }

  /** `name ILIKE '%q%'`: `q` occurs in the name, ignoring ASCII case. */
  predicate NameMatches(name: string, q: string) {
    Contains(Lower(name), Lower(q))
  }

  /** `fileType ILIKE 'prefix%'`. */
  predicate InTab(fileType: string, tab: FilesTab) {
    StartsWith(Lower(fileType), TypePrefix(tab))
  }

  /** The rows a query returns: the user's own, matching `q` when one is given (an empty `q`
      filters nothing), in the tab when one other than `All` is given. */
  predicate Selected(row: FileRow, owner: string, p: QueryParams) {
    && row.userId == owner
    && (p.q.None? || p.q.value == "" || NameMatches(row.name, p.q.value))
    && (p.category.None? || p.category.value == All || InTab(row.fileType, p.category.value))
  }

  // ---------------------------------------------------------------------------------------
  // Order

  /** Code-point order of strings, a prefix first. */
  predicate LexLe(a: string, b: string) {
    a == [] || (b != [] && (a[0] < b[0] || (a[0] == b[0] && LexLe(a[1..], b[1..]))))
  }

  lemma {:induction false} LexLeTotal(a: string, b: string)
    ensures LexLe(a, b) || LexLe(b, a)
  {
    if a != [] && b != [] && a[0] == b[0] {
      LexLeTotal(a[1..], b[1..]);
    }
  }

  lemma {:induction false} LexLeTrans(a: string, b: string, c: string)
    requires LexLe(a, b) && LexLe(b, c)
    ensures LexLe(a, c)
  {
    if a != [] && a[0] == b[0] && b[0] == c[0] {
      LexLeTrans(a[1..], b[1..], c[1..]);
    }
  }

  /** Ascending order on one column. */
  predicate KeyLe(key: SortKey, a: FileRow, b: FileRow) {
    match key
    case ByCreatedAt => a.createdAt <= b.createdAt
    case ByName => LexLe(a.name, b.name)
    case BySize => a.size <= b.size
  }

  /** The column and direction of a query: the requested ones when both a known column and a
      direction are given, otherwise newest first. */
  function OrderOf(p: QueryParams): (SortKey, SortType) {
    if p.sorter.Some? && p.sortType.Some? then
      if p.sorter.value == "createdAt" then (ByCreatedAt, p.sortType.value)
      else if p.sorter.value == "name" then (ByName, p.sortType.value)
      else if p.sorter.value == "size" then (BySize, p.sortType.value)
      else (ByCreatedAt, Desc)
    else (ByCreatedAt, Desc)
  }

  /** `ORDER BY key ASC|DESC` as a "may come first" relation. */
  function Before(key: SortKey, dir: SortType): (FileRow, FileRow) -> bool {
    (a: FileRow, b: FileRow) => if dir == Asc then KeyLe(key, a, b) else KeyLe(key, b, a)
  }

  lemma BeforeIsPreorder(key: SortKey, dir: SortType)
    ensures TotalPreorder(Before(key, dir))
  {
    forall a: FileRow, b: FileRow
      ensures KeyLe(key, a, b) || KeyLe(key, b, a)
    {
      if key == ByName {
        LexLeTotal(a.name, b.name);
      }
    }
    forall a: FileRow, b: FileRow, c: FileRow | KeyLe(key, a, b) && KeyLe(key, b, c)
      ensures KeyLe(key, a, c)
    {
      if key == ByName {
        LexLeTrans(a.name, b.name, c.name);
      }
    }
  }

  // ---------------------------------------------------------------------------------------
  // Reads

  /** `query(params)`: the selected rows in the requested order. */
  function QueryRows(rows: seq<FileRow>, owner: string, p: QueryParams): (r: seq<FileRow>)
    ensures multiset(r) == multiset(Filter(rows, (row: FileRow) => Selected(row, owner, p)))
    ensures SortedBy(r, Before(OrderOf(p).0, OrderOf(p).1))
  {
    BeforeIsPreorder(OrderOf(p).0, OrderOf(p).1);
    SortBy(Filter(rows, (row: FileRow) => Selected(row, owner, p)), Before(OrderOf(p).0, OrderOf(p).1))
  }

  /** A query returns exactly the user's rows that pass its filters. */
  lemma QuerySelects(rows: seq<FileRow>, owner: string, p: QueryParams)
    ensures forall x :: x in QueryRows(rows, owner, p) <==> x in rows && Selected(x, owner, p)
  {
    var r := QueryRows(rows, owner, p);
    var selected := Filter(rows, (row: FileRow) => Selected(row, owner, p));
    forall x
      ensures x in r <==> x in rows && Selected(x, owner, p)
    {
      assert x in r <==> x in multiset(r);
      assert x in selected <==> x in multiset(selected);
      if x in rows && Selected(x, owner, p) {
        var i :| 0 <= i < |rows| && rows[i] == x;
      }
    }
  }

  /** Every listed row is one of the user's rows of the table. */
  lemma QueryOwned(rows: seq<FileRow>, owner: string, p: QueryParams)
    ensures var r := QueryRows(rows, owner, p);
      forall i :: 0 <= i < |r| ==> r[i] in rows && r[i].userId == owner
  {
    var r := QueryRows(rows, owner, p);
    QuerySelects(rows, owner, p);
    forall i | 0 <= i < |r| ensures r[i] in rows && r[i].userId == owner {
      assert r[i] in r;
    }
  }

  /** Without a usable sorter the list is newest first; a query never drops a matching row
      because its sorter is unknown. */
  lemma DefaultOrderIsNewestFirst(rows: seq<FileRow>, owner: string, p: QueryParams)
    requires p.sorter.None? || p.sortType.None? || p.sorter.value !in {"createdAt", "name", "size"}
    ensures var r := QueryRows(rows, owner, p);
      && |r| == |Filter(rows, (row: FileRow) => Selected(row, owner, p))|
      && forall i, j :: 0 <= i < j < |r| ==> r[i].createdAt >= r[j].createdAt
  {
    var r := QueryRows(rows, owner, p);
    assert |r| == |multiset(r)|;
    forall i, j | 0 <= i < j < |r|
      ensures r[i].createdAt >= r[j].createdAt
    {
      assert Before(ByCreatedAt, Desc)(r[i], r[j]);
    }
  }

  /** With a known column and a direction the list is ordered by that column. */
  lemma RequestedOrder(rows: seq<FileRow>, owner: string, p: QueryParams, i: nat, j: nat)
    requires p.sorter.Some? && p.sortType.Some?
    requires i < j < |QueryRows(rows, owner, p)|
    ensures var r := QueryRows(rows, owner, p);
      && (p.sorter.value == "name" && p.sortType.value == Asc ==> LexLe(r[i].name, r[j].name))
      && (p.sorter.value == "name" && p.sortType.value == Desc ==> LexLe(r[j].name, r[i].name))
      && (p.sorter.value == "size" && p.sortType.value == Asc ==> r[i].size <= r[j].size)
      && (p.sorter.value == "size" && p.sortType.value == Desc ==> r[i].size >= r[j].size)
      && (p.sorter.value == "createdAt" && p.sortType.value == Asc ==> r[i].createdAt <= r[j].createdAt)
      && (p.sorter.value == "createdAt" && p.sortType.value == Desc ==> r[i].createdAt >= r[j].createdAt)
  {
    var r := QueryRows(rows, owner, p);
    var (key, dir) := OrderOf(p);
    assert Before(key, dir)(r[i], r[j]);
  }

  /** A name filter keeps exactly the user's rows whose name contains `q` in any ASCII case. */
  lemma NameFilter(rows: seq<FileRow>, owner: string, q: string, row: FileRow)
    requires q != ""
    requires row in rows
    ensures row in QueryRows(rows, owner, QueryParams(Some(q), None, None, None)) <==>
      row.userId == owner && exists k :: OccursAt(Lower(row.name), Lower(q), k)
  {
    ContainsIff(Lower(row.name), Lower(q));
    QuerySelects(rows, owner, QueryParams(Some(q), None, None, None));
  }

  /** A tab other than `All` keeps exactly the user's rows whose type starts with its prefix. */
  lemma TabFilter(rows: seq<FileRow>, owner: string, tab: FilesTab, row: FileRow)
    requires tab != All
    requires row in rows
    ensures row in QueryRows(rows, owner, QueryParams(None, Some(tab), None, None)) <==>
      row.userId == owner && StartsWith(Lower(row.fileType), TypePrefix(tab))
  {
    QuerySelects(rows, owner, QueryParams(None, Some(tab), None, None));
  }

  /** `findById(id)`: this user's row with that id, if any. */
  function FindIn(rows: seq<FileRow>, owner: string, id: string): (r: Option<FileRow>)
    ensures r.Some? ==> r.value in rows && Owned(r.value, owner, id)
    ensures r.None? ==> forall i :: 0 <= i < |rows| ==> !Owned(rows[i], owner, id)
  {
    if rows == [] then None
    else if Owned(rows[0], owner, id) then Some(rows[0])
    else FindIn(rows[1..], owner, id)
  }

  /** A created row is found by its id. */
  lemma {:induction false} FindCreated(rows: seq<FileRow>, row: FileRow)
    requires forall i :: 0 <= i < |rows| ==> rows[i].id != row.id
    ensures FindIn(rows + [row], row.userId, row.id) == Some(row)
  {
    if rows != [] {
      assert (rows + [row])[1..] == rows[1..] + [row];
      FindCreated(rows[1..], row);
    }
  }

  // ---------------------------------------------------------------------------------------
  // Writes

  /** A row with the patch applied. */
  function Patched(row: FileRow, patch: FilePatch): FileRow {
    row.(name := if patch.name.Some? then patch.name.value else row.name,
         size := if patch.size.Some? then patch.size.value else row.size)
  }

  /** The table after `update(id, patch)` by `owner`: only that owner's row `id` changes, and
      only in the patched fields. */
  function UpdateOwned(rows: seq<FileRow>, owner: string, id: string, patch: FilePatch): (r: seq<FileRow>)
    ensures |r| == |rows|
    ensures forall i :: 0 <= i < |rows| && !Owned(rows[i], owner, id) ==> r[i] == rows[i]
    ensures forall i :: 0 <= i < |rows| ==>
      && r[i].id == rows[i].id && r[i].userId == rows[i].userId && r[i].url == rows[i].url
      && r[i].fileType == rows[i].fileType && r[i].createdAt == rows[i].createdAt
    ensures forall i :: 0 <= i < |rows| && Owned(rows[i], owner, id) ==>
      && r[i].name == (if patch.name.Some? then patch.name.value else rows[i].name)
      && r[i].size == (if patch.size.Some? then patch.size.value else rows[i].size)
  {
    seq(|rows|, i requires 0 <= i < |rows| => if Owned(rows[i], owner, id) then Patched(rows[i], patch) else rows[i])
  }

  /** The table after `delete(id)` by `owner`: every row but that owner's row `id`. */
  function DeleteOwned(rows: seq<FileRow>, owner: string, id: string): (r: seq<FileRow>)
    ensures forall i :: 0 <= i < |r| ==> r[i] in rows && !Owned(r[i], owner, id)
    ensures forall i :: 0 <= i < |rows| && !Owned(rows[i], owner, id) ==> rows[i] in r
  {
    Filter(rows, (row: FileRow) => !Owned(row, owner, id))
  }

  /** The table after `clear()` by `owner`: every other user's rows, none of the owner's. */
  function ClearOwned(rows: seq<FileRow>, owner: string): (r: seq<FileRow>)
    ensures forall i :: 0 <= i < |r| ==> r[i] in rows && r[i].userId != owner
    ensures forall i :: 0 <= i < |rows| && rows[i].userId != owner ==> rows[i] in r
  {
    Filter(rows, (row: FileRow) => row.userId != owner)
  }

  /** After a clear the owner's list is empty, whatever the query. */
  lemma ClearEmptiesQuery(rows: seq<FileRow>, owner: string, p: QueryParams)
    ensures QueryRows(ClearOwned(rows, owner), owner, p) == []
  {
    QuerySelects(ClearOwned(rows, owner), owner, p);
  }

  /** Keeping a subset of rows keeps ids distinct. */
  lemma FilterKeepsDistinct(rows: seq<FileRow>, keep: FileRow -> bool)
    requires DistinctIds(rows)
    ensures DistinctIds(Filter(rows, keep))
  {
    var key := (row: FileRow) => row.id;
    assert forall i, j :: 0 <= i < j < |rows| ==> key(rows[i]) != key(rows[j]);
    FilterKeepsDistinctKeys(rows, keep, key);
  }


  /** The files table, shared by every model object. */
  class FileTable {
    var rows: seq<FileRow>

    constructor ()
      ensures rows == []
    {
      rows := [];
    }
  }

  /** `FileModel`: the file operations of one user over the shared table. */
  class FileModel {
    const userId: string
    const db: FileTable

    constructor (userId: string, db: FileTable)
      ensures this.userId == userId && this.db == db
    {
      this.userId := userId;
      this.db := db;
    }

    /** `create(params)`: inserts a row owned by this user, created at `now`, under the new
        id `id`; a clashing primary key rejects the insert. */
    method Create(id: string, params: NewFile, now: int) returns (ok: bool)
      requires DistinctIds(db.rows)
      modifies db
      ensures DistinctIds(db.rows)
      ensures ok <==> forall i :: 0 <= i < |old(db.rows)| ==> old(db.rows)[i].id != id
      ensures var row := FileRow(id, userId, params.name, params.url, params.size, params.fileType, now);
        db.rows == if ok then old(db.rows) + [row] else old(db.rows)
      ensures ok ==> FindById(id) == Some(FileRow(id, userId, params.name, params.url, params.size, params.fileType, now))
    {
      ok := forall i :: 0 <= i < |db.rows| ==> db.rows[i].id != id;
      if ok {
        var row := FileRow(id, userId, params.name, params.url, params.size, params.fileType, now);
        FindCreated(db.rows, row);
        db.rows := db.rows + [row];
      }
    }

    /** `findById(id)`. */
    function FindById(id: string): (r: Option<FileRow>)
      reads db
      ensures r.Some? ==> r.value in db.rows && r.value.id == id && r.value.userId == userId
      ensures r.None? ==> forall i :: 0 <= i < |db.rows| ==> !Owned(db.rows[i], userId, id)
    {
      FindIn(db.rows, userId, id)
    }

    /** `query(params)`. */
    function Query(p: QueryParams): (r: seq<FileRow>)
      reads db
      ensures forall i :: 0 <= i < |r| ==> r[i] in db.rows && r[i].userId == userId
    {
      QueryOwned(db.rows, userId, p);
      QueryRows(db.rows, userId, p)
    }

    /** `update(id, value)`: sets the patched fields of this user's row `id`. */
    method Update(id: string, patch: FilePatch)
      requires DistinctIds(db.rows)
      modifies db
      ensures DistinctIds(db.rows)
      ensures db.rows == UpdateOwned(old(db.rows), userId, id, patch)
    {
      db.rows := UpdateOwned(db.rows, userId, id, patch);
    }

    /** `delete(id)`: removes this user's row `id`. */
    method Delete(id: string)
      requires DistinctIds(db.rows)
      modifies db
      ensures DistinctIds(db.rows)
      ensures db.rows == DeleteOwned(old(db.rows), userId, id)
      ensures FindById(id) == None
    {
      FilterKeepsDistinct(db.rows, (row: FileRow) => !Owned(row, userId, id));
      db.rows := DeleteOwned(db.rows, userId, id);
    }

    /** `clear()`: removes every row of this user. */
    method Clear()
      requires DistinctIds(db.rows)
      modifies db
      ensures DistinctIds(db.rows)
      ensures db.rows == ClearOwned(old(db.rows), userId)
      ensures Query(NoParams) == []
    {
      FilterKeepsDistinct(db.rows, (row: FileRow) => row.userId != userId);
      db.rows := ClearOwned(db.rows, userId);
      ClearEmptiesQuery(old(db.rows), userId, NoParams);
    }
  }
}
