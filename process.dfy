/**
  `process_file` (app.py:28-69) without its web and file plumbing: the upload
  check, the column scan, the rename, and the two appended columns, the second
  holding each tag cell with every `[timestamp]` rewritten to the cachebuster
  macro. Reading and writing the spreadsheet is left to the caller: the
  uploaded sheet arrives as cells, and the processed frame leaves as labels and
  rows.
 */
module Process {
  import opened Text
  import opened Upload
  import opened Cachebuster
  import opened Resolver
  import opened Frame

  /** The response for a missing or refused upload (app.py:69). */
  const InvalidFileMessage := "\U{274C} Invalid file. Please upload a .xlsx file."

  /** The response when a role is unresolved (app.py:51). */
  const MissingColumnsMessage := "\U{274C} Could not find 'Placement ID' or 'Tag' column. Please check the file layout."

  /** The names the rename gives to the two resolved columns (app.py:53-56). */
  const PlacementIdName := "placement_id"
  const TagName := "tag"

  /** The names of the two appended columns (app.py:58, app.py:60). */
  const MappingName := "Placement ID Mapping"
  const CachebustedName := "CACHEBUSTED Tag"

  /** The uploaded file: its name and the sheet the spreadsheet reader makes of it. */
  datatype UploadedFile = UploadedFile(filename: string, sheet: Sheet)

  datatype Response =
    | Download(labels: seq<Label>, rows: seq<seq<string>>)  // the processed sheet, sent as a file
    | Message(text: string)                                  // a plain text page
    | ServerError                                            // an exception escaped the handler

  /** The labels of a freshly read sheet once column p is named 'placement_id' and column t 'tag'. */
  function RenamedPositions(width: nat, p: nat, t: nat): seq<Label>
  {
    seq(width, c requires 0 <= c => if c == t then Name(TagName) else if c == p then Name(PlacementIdName) else Position(c))
  }

  /** The dict display keeps the later of two equal keys, so with p == t only 'tag' is given. */
  lemma RenameOfPositions(width: nat, p: nat, t: nat)
    ensures Relabel(Positions(width), map[Position(p) := Name(PlacementIdName)][Position(t) := Name(TagName)])
            == RenamedPositions(width, p, t)
  {
  }

  /** The renamed columns are found by their new names: 'placement_id' exactly when p != t. */
  lemma FindRenamed(width: nat, p: nat, t: nat, extra: seq<Label>)
    requires p < width && t < width
    requires Name(PlacementIdName) !in extra && Name(TagName) !in extra
    ensures Name(PlacementIdName) in RenamedPositions(width, p, t) + extra <==> p != t
    ensures p != t ==> IndexOf(RenamedPositions(width, p, t) + extra, Name(PlacementIdName)) == Some(p)
    ensures IndexOf(RenamedPositions(width, p, t) + extra, Name(TagName)) == Some(t)
  {
    var ls := RenamedPositions(width, p, t) + extra;
    assert ls[t] == Name(TagName);
    assert forall c :: 0 <= c < |ls| && c != t ==> ls[c] != Name(TagName);
    if p != t {
      assert ls[p] == Name(PlacementIdName);
    }
    assert forall c :: 0 <= c < |ls| && c != p ==> ls[c] != Name(PlacementIdName);
  }

  /**
    app.py:53-56 on the frame just read: the two resolved columns are renamed
    in one call whose mapping is a dict display. The result has a
    'placement_id' column exactly when the roles fell on different columns.
   */
  method RenameResolved(df: DataFrame, width: nat, p: nat, t: nat) returns (hasIds: bool)
    requires p < width && t < width
    requires df.Valid() && df.labels == Positions(width)
    modifies df
    ensures df.Valid() && df.rows == old(df.rows)
    ensures df.labels == RenamedPositions(width, p, t)
    ensures hasIds == (Name(PlacementIdName) in df.labels)
    ensures hasIds <==> p != t
  {
    // A dict display keeps the last value of a repeated key, as map update does.
    df.Rename(map[Position(p) := Name(PlacementIdName)][Position(t) := Name(TagName)]);
    RenameOfPositions(width, p, t);
    FindRenamed(width, p, t, []);
    assert df.labels == RenamedPositions(width, p, t) + [];
    hasIds := Name(PlacementIdName) in df.labels;
  }

  /** app.py:58: a copy of the placement-ID column is appended as the last column, 'Placement ID Mapping'. */
  method AppendMapping(df: DataFrame, ghost s: Sheet, p: nat, t: nat)
    requires s.WellFormed() && p < s.width && t < s.width && p != t
    requires df.Valid() && df.labels == RenamedPositions(s.width, p, t) && df.rows == s.cells
    modifies df
    ensures df.Valid()
    ensures df.labels == RenamedPositions(s.width, p, t) + [Name(MappingName)]
    ensures |df.rows| == |s.cells|
    ensures forall r :: 0 <= r < |s.cells| ==> df.rows[r] == s.cells[r] + [s.cells[r][p]]
  {
    FindRenamed(s.width, p, t, []);
    assert df.labels == RenamedPositions(s.width, p, t) + [];
    var ids := df.Column(Name(PlacementIdName));
    df.InsertLast(MappingName, ids);
  }

  /**
    app.py:60-62: the tag column, each cell passed through the rewrite, is
    appended as the last column, 'CACHEBUSTED Tag'.
   */
  method AppendCachebusted(df: DataFrame, ghost s: Sheet, p: nat, t: nat)
    requires s.WellFormed() && p < s.width && t < s.width && p != t
    requires df.Valid() && df.labels == RenamedPositions(s.width, p, t) + [Name(MappingName)]
    requires |df.rows| == |s.cells|
    requires forall r :: 0 <= r < |s.cells| ==> df.rows[r] == s.cells[r] + [s.cells[r][p]]
    modifies df
    ensures df.Valid()
    ensures df.labels == RenamedPositions(s.width, p, t) + [Name(MappingName), Name(CachebustedName)]
    ensures |df.rows| == |s.cells|
    ensures forall r :: 0 <= r < |s.cells| ==>
              df.rows[r] == s.cells[r] + [s.cells[r][p]] + [Cachebust(s.cells[r][t])]
  {
    FindRenamed(s.width, p, t, [Name(MappingName)]);
    var tags := df.Column(Name(TagName));
    assert forall r :: 0 <= r < |tags| ==> tags[r] == s.cells[r][t];
    df.InsertLast(CachebustedName, seq(|tags|, i requires 0 <= i < |tags| => Cachebust(tags[i])));
  }

  /**
    The whole request. A missing or refused upload gets the invalid-file
    message; an unresolved role gets the missing-columns message; when both
    roles fall on one column, the rename keeps only the later key of its
    mapping, reading the 'placement_id' column raises KeyError and the request fails.
    Otherwise every row keeps its cells and gains a copy of its placement-ID
    cell and its rewritten tag cell, and the two resolved columns are renamed.
   */
  method ProcessFile(upload: Option<UploadedFile>) returns (resp: Response)
    requires upload.Some? ==> upload.value.sheet.WellFormed()
    ensures upload.None? || !AllowedFile(upload.value.filename) ==> resp == Message(InvalidFileMessage)
    ensures upload.Some? && AllowedFile(upload.value.filename) && Resolve(upload.value.sheet).Missing?
            ==> resp == Message(MissingColumnsMessage)
    ensures upload.Some? && AllowedFile(upload.value.filename) && Resolve(upload.value.sheet).Found?
            && Resolve(upload.value.sheet).placementIdCol == Resolve(upload.value.sheet).tagCol
            ==> resp == ServerError
    ensures upload.Some? && AllowedFile(upload.value.filename) && Resolve(upload.value.sheet).Found?
            && Resolve(upload.value.sheet).placementIdCol != Resolve(upload.value.sheet).tagCol
            ==> var s, p, t := upload.value.sheet, Resolve(upload.value.sheet).placementIdCol, Resolve(upload.value.sheet).tagCol;
                && resp.Download?
                && |resp.rows| == |s.cells|
                && (forall r :: 0 <= r < |s.cells| ==>
                      resp.rows[r] == s.cells[r] + [s.cells[r][p]] + [Cachebust(s.cells[r][t])])
                && |resp.labels| == s.width + 2
                && (forall c :: 0 <= c < s.width ==>
                      resp.labels[c] == if c == p then Name(PlacementIdName)
                                        else if c == t then Name(TagName)
                                        else Position(c))
                && resp.labels[s.width..] == [Name(MappingName), Name(CachebustedName)]
  {
    if upload.None? || !AllowedFile(upload.value.filename) {
      return Message(InvalidFileMessage);
    }
    var sheet := upload.value.sheet;
    var df := new DataFrame(sheet.width, sheet.cells);
    var roles := ResolveColumns(sheet);
    if roles.Missing? {
      return Message(MissingColumnsMessage);
    }
    var hasIds := RenameResolved(df, sheet.width, roles.placementIdCol, roles.tagCol);
    if !hasIds {
      // there is no 'placement_id' column to read: KeyError
      return ServerError;
    }
    AppendMapping(df, sheet, roles.placementIdCol, roles.tagCol);
    AppendCachebusted(df, sheet, roles.placementIdCol, roles.tagCol);
    resp := Download(df.labels, df.rows);
    assert resp.labels[sheet.width..] == [Name(MappingName), Name(CachebustedName)];
  }
}
