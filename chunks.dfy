/** The chunk store and the retriever (`ChunkModel`): a table of chunk rows, owner-scoped
    deletion, paginated listing, per-file counts, table-text reconstruction and the two
    top-K similarity rankings.

    The relational database is a `ChunkTable` object holding the rows in insertion order;
    the similarity of a chunk to the query embedding is an abstract integer score keyed by
    chunk id, `None` when the chunk has no embedding row (the left join finds nothing). */
module Chunks {
  import opened Common
  import opened Sorting

  /** `limit: 20` of the paginated listing. */
  const PageSize: nat := 20
  /** `limit(30)` of the general semantic search. */
  const SearchLimit: nat := 30
  /** `limit(5)` of the chat-context semantic search. */
  const ChatSearchLimit: nat := 5
  /** The label put between a table chunk's text and its HTML rendering. */
  const TableLabel: string := "\n\ncontent in Table html is below:\n"

  datatype ChunkMetadata = ChunkMetadata(pageNumber: Option<int>, textAsHtml: Option<string>)

  /** One row of the chunks table. `text` and `chunkType` are nullable columns. */
  datatype Chunk = Chunk(
    id: string,
    fileId: string,
    userId: string,
    index: int,
    chunkType: Option<string>,
    text: Option<string>,
    metadata: ChunkMetadata,
    updatedAt: int)

  /** A row of the paginated listing: the chunk without its file and owner columns, with
      the page number surfaced. */
  datatype FileChunk = FileChunk(
    id: string,
    index: int,
    chunkType: Option<string>,
    text: Option<string>,
    metadata: ChunkMetadata,
    pageNumber: Option<int>,
    updatedAt: int)

  datatype ChunkText = ChunkText(id: string, text: string)

  datatype FileCount = FileCount(id: string, count: nat)

  datatype SearchRow = SearchRow(
    id: string,
    index: int,
    metadata: ChunkMetadata,
    similarity: Option<int>,
    text: Option<string>,
    chunkType: Option<string>)

  datatype ChatSearchRow = ChatSearchRow(id: string, index: int, similarity: Option<int>, text: Option<string>)

  // ---------------------------------------------------------------------------------------
  // Table text reconstruction

  /** How a template literal prints a possibly absent value (`${null}` is "null",
      `${undefined}` is "undefined"). */
  function Interpolate(v: Option<string>, absent: string): (r: string)
    ensures v.Some? ==> r == v.value
    ensures v.None? ==> r == absent
  {
    match v
    case Some(s) => s
    case None => absent
  }

  /** `mapChunkText`: a chunk of type "Table" reads as its text, the label, its HTML
      rendering and a final line break; any other chunk reads as its raw text. */
  function MapChunkText(c: Chunk): (r: Option<string>)
    ensures c.chunkType != Some("Table") ==> r == c.text
    ensures c.chunkType == Some("Table") ==> r.Some?
  {
    if c.chunkType == Some("Table") then
      Some(Interpolate(c.text, "null") + TableLabel + Interpolate(c.metadata.textAsHtml, "undefined") + "\n")
    else
      c.text
  }

  /** The reconstruction of a table chunk keeps all its parts in place: the printed text is
      its prefix, the label follows, the printed HTML sits between the label and the final
      line break, so the result is never empty. */
  lemma TableTextParts(c: Chunk)
    requires c.chunkType == Some("Table")
    ensures var r := MapChunkText(c).value;
      var text := Interpolate(c.text, "null");
      var html := Interpolate(c.metadata.textAsHtml, "undefined");
      && |r| == |text| + |TableLabel| + |html| + 1
      && r[..|text|] == text
      && r[|text|..|text| + |TableLabel|] == TableLabel
      && r[|text| + |TableLabel|..|r| - 1] == html
      && r[|r| - 1] == '\n'
  {
    var text := Interpolate(c.text, "null");
    var html := Interpolate(c.metadata.textAsHtml, "undefined");
    var r := MapChunkText(c).value;
    assert r == text + TableLabel + html + "\n";
    assert r[..|text|] == text;
    assert r[|text|..|text| + |TableLabel|] == TableLabel;
    assert r[|text| + |TableLabel|..|r| - 1] == html;
  }

  // ---------------------------------------------------------------------------------------
  // Orders

  /** Ascending chunk index (`orderBy: asc(chunks.index)`). */
  predicate IndexLe(a: Chunk, b: Chunk) { a.index <= b.index }

  /** Descending update time (`orderBy: desc(chunks.updatedAt)`). */
  predicate UpdatedDesc(a: Chunk, b: Chunk) { a.updatedAt >= b.updatedAt }

  /** Descending similarity with NULL similarities grouped first or last, as the database's
      NULL ordering decides. */
  predicate ScoreBefore(x: Option<int>, y: Option<int>, nullsFirst: bool) {
    if x.Some? && y.Some? then x.value >= y.value
    else if x.None? && y.None? then true
    else if x.None? then nullsFirst
    else !nullsFirst
  }

  lemma ScoreOrderIsPreorder(score: string -> Option<int>, nullsFirst: bool)
    ensures TotalPreorder((a: Chunk, b: Chunk) => ScoreBefore(score(a.id), score(b.id), nullsFirst))
  {
    forall a: Chunk, b: Chunk
      ensures ScoreBefore(score(a.id), score(b.id), nullsFirst) || ScoreBefore(score(b.id), score(a.id), nullsFirst)
    {
    }
    forall a: Chunk, b: Chunk, c: Chunk
      | ScoreBefore(score(a.id), score(b.id), nullsFirst) && ScoreBefore(score(b.id), score(c.id), nullsFirst)
      ensures ScoreBefore(score(a.id), score(c.id), nullsFirst)
    {
    }
  }

  // ---------------------------------------------------------------------------------------
  // Reads

  /** `query(fileId)`: every chunk of the file, most recently updated first (not scoped to an owner). */
  function Query(rows: seq<Chunk>, fileId: string): (r: seq<Chunk>)
    ensures multiset(r) == multiset(Filter(rows, (c: Chunk) => c.fileId == fileId))
    ensures forall i :: 0 <= i < |r| ==> r[i] in rows && r[i].fileId == fileId
    ensures forall i, j :: 0 <= i < j < |r| ==> r[i].updatedAt >= r[j].updatedAt
  {
    var own := Filter(rows, (c: Chunk) => c.fileId == fileId);
    var r := SortBy(own, UpdatedDesc);
    PermutationMembers(own, r);
    r
  }

  /** `findById(id)`, as written: the first chunk whose FILE id is `id`. */
  function FindById(rows: seq<Chunk>, id: string): (r: Option<Chunk>)
    ensures r.Some? ==> r.value in rows && r.value.fileId == id
    ensures r.None? <==> forall i :: 0 <= i < |rows| ==> rows[i].fileId != id
  {
    if rows == [] then None
    else if rows[0].fileId == id then Some(rows[0])
    else FindById(rows[1..], id)
  }

  /** What the name promises: the chunk whose own id is `id`. */
  function FindChunkById(rows: seq<Chunk>, id: string): (r: Option<Chunk>)
    ensures r.Some? ==> r.value in rows && r.value.id == id
    ensures r.None? <==> forall i :: 0 <= i < |rows| ==> rows[i].id != id
  {
    if rows == [] then None
    else if rows[0].id == id then Some(rows[0])
    else FindChunkById(rows[1..], id)
  }

  /** The lookup as written misses a chunk that exists when only its chunk id is given. */
  lemma FindByIdMissesChunkId()
    ensures var c := Chunk("c1", "f1", "u1", 0, None, Some("t"), ChunkMetadata(None, None), 0);
      FindById([c], "c1") == None && FindChunkById([c], "c1") == Some(c)
  {
  }

  /** `findByFileIds(ids)`: the chunks of any of the files, in table order (an empty list
      matches nothing). */
  function FindByFileIds(rows: seq<Chunk>, ids: seq<string>): (r: seq<Chunk>)
    ensures forall i :: 0 <= i < |r| ==> r[i] in rows && r[i].fileId in ids
    ensures forall i :: 0 <= i < |rows| && rows[i].fileId in ids ==> rows[i] in r
    ensures ids == [] ==> r == []
  {
    Filter(rows, (c: Chunk) => c.fileId in ids)
  }

  /** This owner's chunks of one file in ascending index order: the sequence the listing pages through. */
  function OwnedFileChunks(rows: seq<Chunk>, owner: string, fileId: string): (r: seq<Chunk>)
    ensures multiset(r) == multiset(Filter(rows, (c: Chunk) => c.fileId == fileId && c.userId == owner))
    ensures forall i :: 0 <= i < |r| ==> r[i] in rows && r[i].fileId == fileId && r[i].userId == owner
    ensures SortedBy(r, IndexLe)
  {
    var own := Filter(rows, (c: Chunk) => c.fileId == fileId && c.userId == owner);
    var r := SortBy(own, IndexLe);
    PermutationMembers(own, r);
    r
  }

  function AsFileChunk(c: Chunk): FileChunk {
    FileChunk(c.id, c.index, c.chunkType, c.text, c.metadata, c.metadata.pageNumber, c.updatedAt)
  }

  function AsFileChunks(s: seq<Chunk>): (r: seq<FileChunk>)
    ensures |r| == |s|
    ensures forall k :: 0 <= k < |s| ==> r[k] == AsFileChunk(s[k])
  {
    seq(|s|, k requires 0 <= k < |s| => AsFileChunk(s[k]))
  }

  lemma AsFileChunksAppend(a: seq<Chunk>, b: seq<Chunk>)
    ensures AsFileChunks(a + b) == AsFileChunks(a) + AsFileChunks(b)
  {
  }

  /** Positions `page * 20` to `page * 20 + 19` of `s`, clipped to its length (`offset`, `limit`). */
  function PageOf(s: seq<Chunk>, page: nat): (r: seq<Chunk>)
    ensures var lo := page * PageSize;
      && |r| == (if lo < |s| then Min(PageSize, |s| - lo) else 0)
      && forall k :: 0 <= k < |r| ==> r[k] == s[lo + k]
  {
    var lo := Min(page * PageSize, |s|);
    var hi := Min(lo + PageSize, |s|);
    s[lo..hi]
  }

  /** One page of an ordered sequence of chunks, as the listing returns it. */
  function PageRows(all: seq<Chunk>, page: nat): (r: seq<FileChunk>)
    ensures |r| <= PageSize
    ensures var lo := page * PageSize;
      && |r| == (if lo < |all| then Min(PageSize, |all| - lo) else 0)
      && forall k :: 0 <= k < |r| ==> r[k] == AsFileChunk(all[lo + k])
  {
    AsFileChunks(PageOf(all, page))
  }

  /** `findByFileId(id, page)`: at most twenty rows, the ones at positions `page * 20` to
      `page * 20 + 19` of this owner's chunks of the file in ascending index order, each
      without file and owner columns and with `pageNumber` taken from its metadata. */
  function FindByFileId(rows: seq<Chunk>, owner: string, fileId: string, page: nat): (r: seq<FileChunk>)
    ensures |r| <= PageSize
    ensures var all := OwnedFileChunks(rows, owner, fileId); var lo := page * PageSize;
      && |r| == (if lo < |all| then Min(PageSize, |all| - lo) else 0)
      && forall k :: 0 <= k < |r| ==> r[k] == AsFileChunk(all[lo + k])
    ensures forall k :: 0 <= k < |r| ==> r[k].pageNumber == r[k].metadata.pageNumber
    ensures forall i, j :: 0 <= i < j < |r| ==> r[i].index <= r[j].index
  {
    var all := OwnedFileChunks(rows, owner, fileId);
    var r := PageRows(all, page);
    forall i, j | 0 <= i < j < |r| ensures r[i].index <= r[j].index {
      assert IndexLe(all[page * PageSize + i], all[page * PageSize + j]);
    }
    r
  }

  /** The first `n` pages of an ordered sequence, one after the other: what `n` successive
      `findByFileId` calls with pages `0` to `n - 1` return together. */
  function Pages(all: seq<Chunk>, n: nat): seq<FileChunk> {
    if n == 0 then [] else Pages(all, n - 1) + PageRows(all, n - 1)
  }

  /** Pages partition the ordered chunks: the first `n` pages are exactly the first
      `20 * n` ordered chunks, with no gap and no repetition. */
  lemma {:induction false} PagesPartition(all: seq<Chunk>, n: nat)
    ensures Pages(all, n) == AsFileChunks(all[..Min(n * PageSize, |all|)])
  {
    if n > 0 {
      var m0 := Min((n - 1) * PageSize, |all|);
      PagesPartition(all, n - 1);
      AsFileChunksAppend(all[..m0], PageOf(all, n - 1));
      PageOfExtends(all, n - 1);
    }
  }

  lemma PageOfExtends(s: seq<Chunk>, p: nat)
    ensures s[..Min((p + 1) * PageSize, |s|)] == s[..Min(p * PageSize, |s|)] + PageOf(s, p)
  {
    var lo := Min(p * PageSize, |s|);
    assert (p + 1) * PageSize == p * PageSize + PageSize;
    assert PageOf(s, p) == s[lo..Min(lo + PageSize, |s|)];
  }

  /** Enough pages of this owner's chunks of a file list each of them exactly once, in order. */
  lemma PagesCoverFile(rows: seq<Chunk>, owner: string, fileId: string, n: nat)
    requires |OwnedFileChunks(rows, owner, fileId)| <= n * PageSize
    ensures forall p :: 0 <= p < n ==>
      FindByFileId(rows, owner, fileId, p) == PageRows(OwnedFileChunks(rows, owner, fileId), p)
    ensures Pages(OwnedFileChunks(rows, owner, fileId), n) == AsFileChunks(OwnedFileChunks(rows, owner, fileId))
  {
    var all := OwnedFileChunks(rows, owner, fileId);
    PagesPartition(all, n);
    assert all[..Min(n * PageSize, |all|)] == all;
  }

  /** A chunk whose reconstructed text is neither null nor empty. */
  predicate HasText(c: Chunk) {
    MapChunkText(c).Some? && MapChunkText(c).value != ""
  }

  /** The text-view entry of a chunk that has text. */
  function TextOf(c: Chunk): (t: ChunkText)
    requires HasText(c)
    ensures t.id == c.id && t.text != "" && MapChunkText(c) == Some(t.text)
  {
    ChunkText(c.id, MapChunkText(c).value)
  }

  /** The entries of chunks that all have text, position by position. */
  function TextsOf(s: seq<Chunk>): (r: seq<ChunkText>)
    requires forall i :: 0 <= i < |s| ==> HasText(s[i])
    ensures |r| == |s| && forall i :: 0 <= i < |s| ==> r[i] == TextOf(s[i])
  {
    if s == [] then [] else [TextOf(s[0])] + TextsOf(s[1..])
  }

  /** The file's chunk texts, reconstructed, without those that are null or empty. */
  function NonEmptyTexts(s: seq<Chunk>): (r: seq<ChunkText>)
    ensures |r| <= |s|
    ensures forall k :: 0 <= k < |r| ==>
      r[k].text != "" && exists c :: c in s && c.id == r[k].id && MapChunkText(c) == Some(r[k].text)
    ensures forall c :: c in s && MapChunkText(c).Some? && MapChunkText(c).value != "" ==>
      ChunkText(c.id, MapChunkText(c).value) in r
  {
    if s == [] then []
    else
      var rest := NonEmptyTexts(s[1..]);
      assert forall c :: c in s[1..] ==> c in s;
      assert forall c :: c in s ==> c == s[0] || c in s[1..];
      match MapChunkText(s[0])
      case Some(t) => if t != "" then [ChunkText(s[0].id, t)] + rest else rest
      case None => rest
  }

  /** The text view keeps exactly the chunks that have text, once each and in order. */
  lemma {:induction false} NonEmptyTextsIsFilterMap(s: seq<Chunk>)
    ensures NonEmptyTexts(s) == TextsOf(Filter(s, HasText))
  {
    if s != [] {
      NonEmptyTextsIsFilterMap(s[1..]);
      var rest := Filter(s[1..], HasText);
      if HasText(s[0]) {
        assert Filter(s, HasText) == [s[0]] + rest;
        assert ([s[0]] + rest)[1..] == rest;
      } else {
        assert Filter(s, HasText) == rest;
      }
    }
  }

  /** Chunks of the file with the given id. */
  function OfFile(fileId: string): Chunk -> bool {
    (c: Chunk) => c.fileId == fileId
  }

  /** `getChunksTextByFileId(id)`: one entry per chunk of the file (any owner) whose
      reconstructed text is neither null nor empty, carrying that text, in the order the
      rows come back (table order in this model). */
  function GetChunksTextByFileId(rows: seq<Chunk>, fileId: string): (r: seq<ChunkText>)
    ensures forall k :: 0 <= k < |r| ==>
      r[k].text != "" && exists c :: c in rows && c.fileId == fileId && c.id == r[k].id && MapChunkText(c) == Some(r[k].text)
    ensures forall c :: c in rows && c.fileId == fileId && MapChunkText(c).Some? && MapChunkText(c).value != "" ==>
      ChunkText(c.id, MapChunkText(c).value) in r
    ensures r == TextsOf(Filter(Filter(rows, OfFile(fileId)), HasText))
  {
    var own := Filter(rows, OfFile(fileId));
    var r := NonEmptyTexts(own);
    assert forall c :: c in own ==> c in rows && c.fileId == fileId;
    NonEmptyTextsIsFilterMap(own);
    r
  }

  /** With chunk ids unique in the table, the text view names every chunk at most once. */
  lemma ChunkTextIdsDistinct(rows: seq<Chunk>, fileId: string)
    requires DistinctIds(rows)
    ensures var r := GetChunksTextByFileId(rows, fileId);
      forall i, j :: 0 <= i < j < |r| ==> r[i].id != r[j].id
  {
    var key := (c: Chunk) => c.id;
    assert forall i, j :: 0 <= i < j < |rows| ==> key(rows[i]) != key(rows[j]);
    var own := Filter(rows, OfFile(fileId));
    FilterKeepsDistinctKeys(rows, OfFile(fileId), key);
    FilterKeepsDistinctKeys(own, HasText, key);
  }

  /** A table chunk of the file is never dropped from the text view. */
  lemma TableChunksKeepText(rows: seq<Chunk>, fileId: string, c: Chunk)
    requires c in rows && c.fileId == fileId && c.chunkType == Some("Table")
    ensures exists t :: t != "" && ChunkText(c.id, t) in GetChunksTextByFileId(rows, fileId)
  {
    TableTextParts(c);
    var t := MapChunkText(c).value;
    assert t[|t| - 1] == '\n';
    assert ChunkText(c.id, t) in GetChunksTextByFileId(rows, fileId);
  }

  /** Number of chunks of one file, any owner (`count(chunks.id)` of its group). */
  function CountOf(rows: seq<Chunk>, fileId: string): nat {
    if rows == [] then 0
    else (if rows[0].fileId == fileId then 1 else 0) + CountOf(rows[1..], fileId)
  }

  /** A file has a zero count exactly when no row belongs to it. */
  lemma {:induction false} CountOfZero(rows: seq<Chunk>, fileId: string)
    ensures CountOf(rows, fileId) == 0 <==> forall i :: 0 <= i < |rows| ==> rows[i].fileId != fileId
  {
    if rows != [] {
      CountOfZero(rows[1..], fileId);
      assert forall i :: 1 <= i < |rows| ==> rows[i] == rows[1..][i - 1];
    }
  }

  /** The count is the number of rows the file filter keeps. */
  lemma {:induction false} CountOfIsFilterLength(rows: seq<Chunk>, fileId: string)
    ensures CountOf(rows, fileId) == |Filter(rows, (c: Chunk) => c.fileId == fileId)|
  {
    if rows != [] {
      CountOfIsFilterLength(rows[1..], fileId);
    }
  }

  /** The file ids of a list of groups, in order. */
  function GroupIds(groups: seq<FileCount>): (r: seq<string>)
    ensures |r| == |groups|
    ensures forall k :: 0 <= k < |r| ==> r[k] == groups[k].id
  {
    if groups == [] then [] else [groups[0].id] + GroupIds(groups[1..])
  }

  /** One group per listed file that has chunks, with its count, at the last listing of the file. */
  function Groups(rows: seq<Chunk>, ids: seq<string>): seq<FileCount> {
    if ids == [] then []
    else
      var n := CountOf(rows, ids[0]);
      if n > 0 && ids[0] !in ids[1..] then [FileCount(ids[0], n)] + Groups(rows, ids[1..])
      else Groups(rows, ids[1..])
  }

  /** Every group is a listed file with its true, positive count. */
  lemma {:induction false} GroupsCounted(rows: seq<Chunk>, ids: seq<string>)
    ensures forall k :: 0 <= k < |Groups(rows, ids)| ==>
      && Groups(rows, ids)[k].id in ids
      && Groups(rows, ids)[k].count == CountOf(rows, Groups(rows, ids)[k].id)
      && Groups(rows, ids)[k].count > 0
  {
    if ids != [] {
      GroupsCounted(rows, ids[1..]);
      var rest := Groups(rows, ids[1..]);
      assert forall x :: x in ids[1..] ==> x in ids;
    }
  }

  /** No file is grouped twice, however often it is listed. */
  lemma {:induction false} GroupsDistinct(rows: seq<Chunk>, ids: seq<string>)
    ensures forall k, l :: 0 <= k < l < |Groups(rows, ids)| ==> Groups(rows, ids)[k].id != Groups(rows, ids)[l].id
  {
    if ids != [] {
      GroupsDistinct(rows, ids[1..]);
      GroupsCounted(rows, ids[1..]);
    }
  }

  /** Every listed file that has chunks is grouped. */
  lemma {:induction false} GroupsComplete(rows: seq<Chunk>, ids: seq<string>)
    ensures forall i :: 0 <= i < |ids| && CountOf(rows, ids[i]) > 0 ==> ids[i] in GroupIds(Groups(rows, ids))
  {
    if ids != [] {
      GroupsComplete(rows, ids[1..]);
      var rest := Groups(rows, ids[1..]);
      var r := Groups(rows, ids);
      forall i | 0 <= i < |ids| && CountOf(rows, ids[i]) > 0 ensures ids[i] in GroupIds(r) {
        if i > 0 {
          assert ids[i] == ids[1..][i - 1];
          assert ids[i] in GroupIds(rest);
          if r != rest {
            assert r[1..] == rest;
            assert GroupIds(r)[1..] == GroupIds(rest);
          }
        } else if ids[0] in ids[1..] {
          var j :| 0 <= j < |ids[1..]| && ids[1..][j] == ids[0];
          assert ids[0] in GroupIds(rest);
        }
      }
    }
  }

  /** `countByFileIds(ids)`: nothing for an empty list (the table is not consulted);
      otherwise one `(fileId, count)` per listed file that has chunks, each file once. */
  function CountByFileIds(rows: seq<Chunk>, ids: seq<string>): (r: seq<FileCount>)
    ensures ids == [] ==> r == []
    ensures forall k :: 0 <= k < |r| ==> r[k].id in ids && r[k].count == CountOf(rows, r[k].id) && r[k].count > 0
    ensures forall k, l :: 0 <= k < l < |r| ==> r[k].id != r[l].id
    ensures forall i :: 0 <= i < |ids| && CountOf(rows, ids[i]) > 0 ==> ids[i] in GroupIds(r)
  {
    if |ids| == 0 then []
    else
      GroupsCounted(rows, ids);
      GroupsDistinct(rows, ids);
      GroupsComplete(rows, ids);
      Groups(rows, ids)
  }

  /** `countByFileId(id)`: the number of chunks of the file, 0 when it has none. */
  function CountByFileId(rows: seq<Chunk>, fileId: string): (r: nat)
    ensures r == 0 <==> forall i :: 0 <= i < |rows| ==> rows[i].fileId != fileId
    ensures forall k :: 0 <= k < |CountByFileIds(rows, [fileId])| ==> CountByFileIds(rows, [fileId])[k].count == r
  {
    CountOfZero(rows, fileId);
    CountOf(rows, fileId)
  }

  // ---------------------------------------------------------------------------------------
  // Ranked retrieval

  /** The `k` best-ranked candidates: descending similarity, ties and NULL placement as the
      database leaves them. */
  function TopChunks(cands: seq<Chunk>, score: string -> Option<int>, nullsFirst: bool, k: nat): (r: seq<Chunk>)
    ensures |r| == Min(k, |cands|)
    ensures multiset(r) <= multiset(cands)
    ensures forall i :: 0 <= i < |r| ==> r[i] in cands
    ensures forall i, j :: 0 <= i < j < |r| ==> ScoreBefore(score(r[i].id), score(r[j].id), nullsFirst)
    ensures forall c :: c in cands ==> c in r || forall j :: 0 <= j < |r| ==> ScoreBefore(score(r[j].id), score(c.id), nullsFirst)
  {
    var le := (a: Chunk, b: Chunk) => ScoreBefore(score(a.id), score(b.id), nullsFirst);
    ScoreOrderIsPreorder(score, nullsFirst);
    TopKIsBest(cands, le, k);
    Take(SortBy(cands, le), k)
  }

  /** Candidates of `semanticSearch`: restricted to `fileIds` whenever it is given (an empty
      list is still a restriction), otherwise every chunk of every owner. */
  function SearchScope(rows: seq<Chunk>, fileIds: Option<seq<string>>): (r: seq<Chunk>)
    ensures forall i :: 0 <= i < |r| ==> r[i] in rows && (fileIds.Some? ==> r[i].fileId in fileIds.value)
    ensures forall c :: c in rows && (fileIds.Some? ==> c.fileId in fileIds.value) ==> c in r
  {
    match fileIds
    case None => rows
    case Some(ids) => Filter(rows, (c: Chunk) => c.fileId in ids)
  }

  /** Candidates of `semanticSearchForChat`: restricted only by a non-empty `fileIds`. */
  function ChatScope(rows: seq<Chunk>, fileIds: Option<seq<string>>): (r: seq<Chunk>)
    ensures forall i :: 0 <= i < |r| ==> r[i] in rows && (fileIds.Some? && fileIds.value != [] ==> r[i].fileId in fileIds.value)
    ensures forall c :: c in rows && (fileIds.Some? && fileIds.value != [] ==> c.fileId in fileIds.value) ==> c in r
    ensures fileIds.None? || fileIds.value == [] ==> r == rows
  {
    if fileIds.Some? && |fileIds.value| > 0 then Filter(rows, (c: Chunk) => c.fileId in fileIds.value) else rows
  }

  function AsSearchRow(c: Chunk, score: string -> Option<int>): SearchRow {
    SearchRow(c.id, c.index, c.metadata, score(c.id), c.text, c.chunkType)
  }

  function SearchRows(top: seq<Chunk>, score: string -> Option<int>): (r: seq<SearchRow>)
    ensures |r| == |top|
    ensures forall i :: 0 <= i < |r| ==> r[i] == AsSearchRow(top[i], score)
  {
    seq(|top|, i requires 0 <= i < |top| => AsSearchRow(top[i], score))
  }

  function AsChatRow(c: Chunk, score: string -> Option<int>): ChatSearchRow {
    ChatSearchRow(c.id, c.index, score(c.id), MapChunkText(c))
  }

  function ChatRows(top: seq<Chunk>, score: string -> Option<int>): (r: seq<ChatSearchRow>)
    ensures |r| == |top|
    ensures forall i :: 0 <= i < |r| ==> r[i] == AsChatRow(top[i], score)
  {
    seq(|top|, i requires 0 <= i < |top| => AsChatRow(top[i], score))
  }

  /** The rows of the `k` best candidates are candidates' rows, in ranking order, and no
      better candidate is left out. */
  lemma SearchRowsRanked(cands: seq<Chunk>, score: string -> Option<int>, nullsFirst: bool, k: nat)
    ensures var r := SearchRows(TopChunks(cands, score, nullsFirst, k), score);
      && |r| == Min(k, |cands|)
      && (forall i :: 0 <= i < |r| ==> exists c :: c in cands && r[i] == AsSearchRow(c, score))
      && (forall i, j :: 0 <= i < j < |r| ==> ScoreBefore(r[i].similarity, r[j].similarity, nullsFirst))
      && forall c :: c in cands ==>
           AsSearchRow(c, score) in r || forall j :: 0 <= j < |r| ==> ScoreBefore(r[j].similarity, score(c.id), nullsFirst)
  {
    var top := TopChunks(cands, score, nullsFirst, k);
    var r := SearchRows(top, score);
    forall i | 0 <= i < |r|
      ensures exists c :: c in cands && r[i] == AsSearchRow(c, score)
    {
      assert top[i] in cands && r[i] == AsSearchRow(top[i], score);
    }
    forall c | c in cands
      ensures AsSearchRow(c, score) in r || forall j :: 0 <= j < |r| ==> ScoreBefore(r[j].similarity, score(c.id), nullsFirst)
    {
      if c in top {
        var j :| 0 <= j < |top| && top[j] == c;
        assert r[j] == AsSearchRow(c, score);
      }
    }
  }

  /** The chat rows of the `k` best candidates: as for the general search. */
  lemma ChatRowsRanked(cands: seq<Chunk>, score: string -> Option<int>, nullsFirst: bool, k: nat)
    ensures var r := ChatRows(TopChunks(cands, score, nullsFirst, k), score);
      && |r| == Min(k, |cands|)
      && (forall i :: 0 <= i < |r| ==> exists c :: c in cands && r[i] == AsChatRow(c, score))
      && (forall i, j :: 0 <= i < j < |r| ==> ScoreBefore(r[i].similarity, r[j].similarity, nullsFirst))
      && forall c :: c in cands ==>
           AsChatRow(c, score) in r || forall j :: 0 <= j < |r| ==> ScoreBefore(r[j].similarity, score(c.id), nullsFirst)
  {
    var top := TopChunks(cands, score, nullsFirst, k);
    var r := ChatRows(top, score);
    forall i | 0 <= i < |r|
      ensures exists c :: c in cands && r[i] == AsChatRow(c, score)
    {
      assert top[i] in cands && r[i] == AsChatRow(top[i], score);
    }
    forall c | c in cands
      ensures AsChatRow(c, score) in r || forall j :: 0 <= j < |r| ==> ScoreBefore(r[j].similarity, score(c.id), nullsFirst)
    {
      if c in top {
        var j :| 0 <= j < |top| && top[j] == c;
        assert r[j] == AsChatRow(c, score);
      }
    }
  }

  /** Each candidate's row appears in the result at most as often as the candidate does. */
  lemma SearchRowsDrawnOnce(cands: seq<Chunk>, score: string -> Option<int>, nullsFirst: bool, k: nat)
    ensures multiset(SearchRows(TopChunks(cands, score, nullsFirst, k), score)) <= multiset(SearchRows(cands, score))
  {
    var top := TopChunks(cands, score, nullsFirst, k);
    MapMultisetMono(top, cands, SearchRows(top, score), SearchRows(cands, score), (c: Chunk) => AsSearchRow(c, score));
  }

  /** The chat rows of the best candidates: as for the general search. */
  lemma ChatRowsDrawnOnce(cands: seq<Chunk>, score: string -> Option<int>, nullsFirst: bool, k: nat)
    ensures multiset(ChatRows(TopChunks(cands, score, nullsFirst, k), score)) <= multiset(ChatRows(cands, score))
  {
    var top := TopChunks(cands, score, nullsFirst, k);
    MapMultisetMono(top, cands, ChatRows(top, score), ChatRows(cands, score), (c: Chunk) => AsChatRow(c, score));
  }

  /** `semanticSearch`: at most thirty candidates, best similarity first, each with its raw text. */
  function SemanticSearch(rows: seq<Chunk>, score: string -> Option<int>, fileIds: Option<seq<string>>, nullsFirst: bool)
    : (r: seq<SearchRow>)
    ensures |r| == Min(SearchLimit, |SearchScope(rows, fileIds)|)
    ensures forall i :: 0 <= i < |r| ==> exists c :: c in SearchScope(rows, fileIds) && r[i] == AsSearchRow(c, score)
    ensures forall i, j :: 0 <= i < j < |r| ==> ScoreBefore(r[i].similarity, r[j].similarity, nullsFirst)
    ensures forall c :: c in SearchScope(rows, fileIds) ==>
      AsSearchRow(c, score) in r || forall j :: 0 <= j < |r| ==> ScoreBefore(r[j].similarity, score(c.id), nullsFirst)
    // no candidate's row is repeated beyond the candidate's own multiplicity
    ensures multiset(r) <= multiset(SearchRows(SearchScope(rows, fileIds), score))
  {
    var cands := SearchScope(rows, fileIds);
    SearchRowsRanked(cands, score, nullsFirst, SearchLimit);
    SearchRowsDrawnOnce(cands, score, nullsFirst, SearchLimit);
    SearchRows(TopChunks(cands, score, nullsFirst, SearchLimit), score)
  }

  /** `semanticSearchForChat`: at most five candidates, best similarity first, each with its
      reconstructed text. */
  function SemanticSearchForChat(rows: seq<Chunk>, score: string -> Option<int>, fileIds: Option<seq<string>>, nullsFirst: bool)
    : (r: seq<ChatSearchRow>)
    ensures |r| == Min(ChatSearchLimit, |ChatScope(rows, fileIds)|)
    ensures forall i :: 0 <= i < |r| ==> exists c :: c in ChatScope(rows, fileIds) && r[i] == AsChatRow(c, score)
    ensures forall i, j :: 0 <= i < j < |r| ==> ScoreBefore(r[i].similarity, r[j].similarity, nullsFirst)
    ensures forall c :: c in ChatScope(rows, fileIds) ==>
      AsChatRow(c, score) in r || forall j :: 0 <= j < |r| ==> ScoreBefore(r[j].similarity, score(c.id), nullsFirst)
    ensures multiset(r) <= multiset(ChatRows(ChatScope(rows, fileIds), score))
  {
    var cands := ChatScope(rows, fileIds);
    ChatRowsRanked(cands, score, nullsFirst, ChatSearchLimit);
    ChatRowsDrawnOnce(cands, score, nullsFirst, ChatSearchLimit);
    ChatRows(TopChunks(cands, score, nullsFirst, ChatSearchLimit), score)
  }

  /** Rows that both carry a similarity come in non-increasing similarity. */
  lemma SearchSimilarityNonIncreasing(rows: seq<Chunk>, score: string -> Option<int>, fileIds: Option<seq<string>>, nullsFirst: bool)
    ensures var r := SemanticSearch(rows, score, fileIds, nullsFirst);
      forall i, j :: 0 <= i < j < |r| && r[i].similarity.Some? && r[j].similarity.Some? ==>
        r[i].similarity.value >= r[j].similarity.value
  {
    var r := SemanticSearch(rows, score, fileIds, nullsFirst);
    forall i, j | 0 <= i < j < |r| && r[i].similarity.Some? && r[j].similarity.Some?
      ensures r[i].similarity.value >= r[j].similarity.value
    {
      assert ScoreBefore(r[i].similarity, r[j].similarity, nullsFirst);
    }
  }

  /** An empty file-id list and an absent one give the same chat search. */
  lemma ChatEmptyFilterIsNoFilter(rows: seq<Chunk>, score: string -> Option<int>, nullsFirst: bool)
    ensures SemanticSearchForChat(rows, score, Some([]), nullsFirst) == SemanticSearchForChat(rows, score, None, nullsFirst)
  {
  }

  /** With an empty list, the general search (unlike the chat search) returns nothing. */
  lemma SearchEmptyFilterMatchesNothing(rows: seq<Chunk>, score: string -> Option<int>, nullsFirst: bool)
    ensures SemanticSearch(rows, score, Some([]), nullsFirst) == []
  {
  }

  // ---------------------------------------------------------------------------------------
  // Writes

  /** Chunk ids are the table's primary key. */
  ghost predicate DistinctIds(rows: seq<Chunk>) {
    forall i, j :: 0 <= i < j < |rows| ==> rows[i].id != rows[j].id
  }

  predicate Owned(c: Chunk, owner: string, id: string) {
    c.id == id && c.userId == owner
  }

  /** The table after `delete(id)` by `owner`: the rows that are not this owner's chunk `id`. */
  function DeleteOwned(rows: seq<Chunk>, owner: string, id: string): (r: seq<Chunk>)
    ensures forall i :: 0 <= i < |r| ==> r[i] in rows && !Owned(r[i], owner, id)
    ensures forall i :: 0 <= i < |rows| && !Owned(rows[i], owner, id) ==> rows[i] in r
    ensures (forall i :: 0 <= i < |rows| ==> !Owned(rows[i], owner, id)) ==> r == rows
  {
    Filter(rows, KeptBy(owner, id))
  }

  /** The rows a delete of `id` by `owner` leaves in place. */
  function KeptBy(owner: string, id: string): Chunk -> bool {
    (c: Chunk) => !Owned(c, owner, id)
  }

  /** With distinct ids, deleting an owned chunk removes exactly one row. */
  lemma {:induction false} DeleteOwnedCount(rows: seq<Chunk>, owner: string, id: string, i: nat)
    requires DistinctIds(rows)
    requires i < |rows| && Owned(rows[i], owner, id)
    ensures |DeleteOwned(rows, owner, id)| == |rows| - 1
  {
    if i == 0 {
      assert forall k :: 0 <= k < |rows[1..]| ==> !Owned(rows[1..][k], owner, id);
      assert DeleteOwned(rows[1..], owner, id) == rows[1..];
    } else {
      assert Owned(rows[1..][i - 1], owner, id);
      DeleteOwnedCount(rows[1..], owner, id, i - 1);
    }
  }

  /** The database table of chunks, shared by every model object. */
  class ChunkTable {
    var rows: seq<Chunk>

    constructor ()
      ensures rows == []
    {
      rows := [];
    }
  }

  /** `ChunkModel`: the chunk operations of one user over the shared table. */
  class ChunkModel {
    const userId: string
    const db: ChunkTable

    constructor (userId: string, db: ChunkTable)
      ensures this.userId == userId && this.db == db
    {
      this.userId := userId;
      this.db := db;
    }

    /** `create(params)`: inserts one row; a clashing primary key rejects the insert. */
    method Create(c: Chunk) returns (ok: bool)
      requires DistinctIds(db.rows)
      modifies db
      ensures DistinctIds(db.rows)
      ensures ok <==> forall i :: 0 <= i < |old(db.rows)| ==> old(db.rows)[i].id != c.id
      ensures db.rows == if ok then old(db.rows) + [c] else old(db.rows)
    {
      ok := forall i :: 0 <= i < |db.rows| ==> db.rows[i].id != c.id;
      if ok {
        db.rows := db.rows + [c];
      }
    }

    /** `bulkCreate(params)`: one batched insert; all rows go in, or none when a key clashes. */
    method BulkCreate(cs: seq<Chunk>) returns (ok: bool)
      requires DistinctIds(db.rows)
      modifies db
      ensures DistinctIds(db.rows)
      ensures ok <==> DistinctIds(old(db.rows) + cs)
      ensures db.rows == if ok then old(db.rows) + cs else old(db.rows)
    {
      ok := forall i, j :: 0 <= i < j < |db.rows + cs| ==> (db.rows + cs)[i].id != (db.rows + cs)[j].id;
      if ok {
        db.rows := db.rows + cs;
      }
    }

    /** `delete(id)`: removes this user's chunk `id`; every other row stays, in order. */
    method Delete(id: string)
      requires DistinctIds(db.rows)
      modifies db
      ensures DistinctIds(db.rows)
      ensures db.rows == DeleteOwned(old(db.rows), userId, id)
    {
      db.rows := DeleteOwned(db.rows, userId, id);
      assert DistinctIds(db.rows) by {
        FilterKeepsDistinct(old(db.rows), userId, id);
      }
    }
  }

  /** A delete keeps chunk ids distinct. */
  lemma FilterKeepsDistinct(rows: seq<Chunk>, owner: string, id: string)
    requires DistinctIds(rows)
    ensures DistinctIds(DeleteOwned(rows, owner, id))
  {
    var key := (c: Chunk) => c.id;
    assert forall i, j :: 0 <= i < j < |rows| ==> key(rows[i]) != key(rows[j]);
    FilterKeepsDistinctKeys(rows, KeptBy(owner, id), key);
  }

}
