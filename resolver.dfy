/**
  The column-detection loop of `process_file` (app.py:38-51). The sheet is
  read without a header row, so its first spreadsheet row is data row 0 and
  the columns are numbered from 0. For every column, left to right, the first
  20 cells, lower-cased, are sampled: the first column with a sampled cell of
  five or more digits becomes the placement-ID column, and the first column
  with a sampled cell containing "timestamp" becomes the tag column. A role,
  once taken, is never reassigned, and the two roles are chosen independently.
 */
module Resolver {
  import opened Text

  /** How many leading rows are sampled. */
  const SampleRows := 20

  /** The fewest digits a placement ID has. */
  const MinIdDigits := 5

  /** The text whose presence marks a tag cell. */
  const TagMarker := "timestamp"

  /** The frame the spreadsheet reader yields when told there is no header row, every cell already text. */
  datatype Sheet = Sheet(width: nat, cells: seq<seq<string>>)
  {
    /** Every row has one cell per column. */
    predicate WellFormed()
    {
      forall r :: 0 <= r < |cells| ==> |cells[r]| == width
    }

    /** The leading rows that are sampled. */
    function Head(): seq<seq<string>>
    {
      cells[..if |cells| < SampleRows then |cells| else SampleRows]
    }
  }

  datatype Role = PlacementId | Tag

  /**
    The placement-ID test of app.py:44: the whole value is five or more digits.
    Lower-casing before the test leaves such a value as it is.
   */
  predicate IsPlacementIdValue(v: string)
    ensures IsPlacementIdValue(v) ==> Lower(v) == v
  {
    |v| >= MinIdDigits && forall i :: 0 <= i < |v| ==> IsDigit(v[i])
  }

  /** The tag test of app.py:47: the value contains the marker. */
  predicate IsTagValue(v: string)
  {
    Contains(v, TagMarker)
  }

  /** The nine characters of `v` from index `i` lower-case to the marker. */
  predicate MarkerAt(v: string, i: nat)
  {
    i + |TagMarker| <= |v| && Lower(v[i..i + |TagMarker|]) == TagMarker
  }

  /**
    Applied to a lower-cased cell, the tag test is case-insensitive containment:
    some nine-character window of the cell lower-cases to the marker.
   */
  lemma TagTestIgnoresCase(v: string)
    ensures IsTagValue(Lower(v)) <==> exists i: nat :: MarkerAt(v, i)
  {
    var n := |TagMarker|;
    if IsTagValue(Lower(v)) {
      var i: nat :| i <= |Lower(v)| && OccursAt(Lower(v), TagMarker, i);
      assert Lower(v)[i..i + n] == Lower(v[i..i + n]);
      assert MarkerAt(v, i);
    }
    if k: nat :| MarkerAt(v, k) {
      assert Lower(v)[k..k + n] == Lower(v[k..k + n]);
      assert OccursAt(Lower(v), TagMarker, k);
    }
  }

  /** No single value passes both tests: the marker holds letters, an ID only digits. */
  lemma NoValueFitsBothRoles(v: string)
    ensures !(IsPlacementIdValue(v) && IsTagValue(v))
  {
    if IsPlacementIdValue(v) {
      forall i: nat | i <= |v| && i + |TagMarker| <= |v|
        ensures !OccursAt(v, TagMarker, i)
      {
        assert v[i..i + |TagMarker|][0] == v[i];
      }
    }
  }

  /** The per-cell test of each role, applied to a lower-cased value. */
  predicate Fits(role: Role, v: string)
  {
    match role
    case PlacementId => IsPlacementIdValue(v)
    case Tag => IsTagValue(v)
  }

  /** The sample of app.py:42: the first 20 cells of column `c`, lower-cased. */
  function Sample(s: Sheet, c: nat): (vs: seq<string>)
    requires s.WellFormed() && c < s.width
  {
    var head := s.Head();
    seq(|head|, r requires 0 <= r < |head| => Lower(head[r][c]))
  }

  /** The sample holds the first 20 cells of the column (all of them in a shorter sheet), each lower-cased. */
  lemma SampleIsLoweredHead(s: Sheet, c: nat)
    requires s.WellFormed() && c < s.width
    ensures |Sample(s, c)| == if |s.cells| < SampleRows then |s.cells| else SampleRows
    ensures forall r :: 0 <= r < |Sample(s, c)| ==> Sample(s, c)[r] == Lower(s.cells[r][c])
  {
  }

  /** Some sampled value of column `c` passes the role's test (app.py:44 and 47). */
  predicate ColumnFits(s: Sheet, role: Role, c: nat)
    requires s.WellFormed() && c < s.width
  {
    var vs := Sample(s, c);
    exists i :: 0 <= i < |vs| && Fits(role, vs[i])
  }

  /** A column fits exactly when one of its first 20 cells, lower-cased, passes the role's test. */
  lemma ColumnFitsIffSampledCell(s: Sheet, role: Role, c: nat)
    requires s.WellFormed() && c < s.width
    ensures ColumnFits(s, role, c) <==>
              exists r :: 0 <= r < |s.cells| && r < SampleRows && Fits(role, Lower(s.cells[r][c]))
  {
    var vs := Sample(s, c);
    SampleIsLoweredHead(s, c);
    if r :| 0 <= r < |s.cells| && r < SampleRows && Fits(role, Lower(s.cells[r][c])) {
      assert Fits(role, vs[r]);
    }
  }

  /**
    The column a role holds after the loop has visited columns 0 .. n-1: the
    first one that fits, kept once found.
   */
  function Leftmost(s: Sheet, role: Role, n: nat): (r: Option<nat>)
    requires s.WellFormed() && n <= s.width
    ensures r.Some? ==> r.value < n && ColumnFits(s, role, r.value)
    ensures r.Some? ==> forall c :: 0 <= c < r.value ==> !ColumnFits(s, role, c)
    ensures r.None? <==> forall c :: 0 <= c < n ==> !ColumnFits(s, role, c)
  {
    if n == 0 then None
    else
      match Leftmost(s, role, n - 1)
      case Some(c) => Some(c)
      case None => if ColumnFits(s, role, n - 1) then Some(n - 1) else None
  }

  /** The outcome of the scan and of the unresolved-role check at app.py:50. */
  datatype Resolution = Found(placementIdCol: nat, tagCol: nat) | Missing

  /**
    Both roles resolved to their leftmost fitting columns, or `Missing` exactly
    when some role has no fitting column at all.
   */
  function Resolve(s: Sheet): (r: Resolution)
    requires s.WellFormed()
    ensures r.Found? ==> r.placementIdCol < s.width && ColumnFits(s, PlacementId, r.placementIdCol)
    ensures r.Found? ==> forall c :: 0 <= c < r.placementIdCol ==> !ColumnFits(s, PlacementId, c)
    ensures r.Found? ==> r.tagCol < s.width && ColumnFits(s, Tag, r.tagCol)
    ensures r.Found? ==> forall c :: 0 <= c < r.tagCol ==> !ColumnFits(s, Tag, c)
    ensures r.Missing? <==> ((forall c :: 0 <= c < s.width ==> !ColumnFits(s, PlacementId, c))
                             || (forall c :: 0 <= c < s.width ==> !ColumnFits(s, Tag, c)))
  {
    match (Leftmost(s, PlacementId, s.width), Leftmost(s, Tag, s.width))
    case (Some(p), Some(t)) => Found(p, t)
    case _ => Missing
  }

  /** The loop over the columns, left to right, with a separate "not yet assigned" guard per role. */
  method ResolveColumns(s: Sheet) returns (res: Resolution)
    requires s.WellFormed()
    ensures res == Resolve(s)
  {
    var placementIdCol: Option<nat> := None;
    var tagCol: Option<nat> := None;
    for col := 0 to s.width
      invariant placementIdCol == Leftmost(s, PlacementId, col)
      invariant tagCol == Leftmost(s, Tag, col)
    {
      if placementIdCol.None? && ColumnFits(s, PlacementId, col) {
        placementIdCol := Some(col);
      }
      if tagCol.None? && ColumnFits(s, Tag, col) {
        tagCol := Some(col);
      }
    }
    if placementIdCol.None? || tagCol.None? {
      return Missing;
    }
    return Found(placementIdCol.value, tagCol.value);
  }

  /** Two sheets whose columns fit a role alike agree on the role's column. */
  lemma LeftmostAgrees(s: Sheet, t: Sheet, role: Role, n: nat)
    requires s.WellFormed() && t.WellFormed() && n <= s.width && n <= t.width
    requires forall c :: 0 <= c < n ==> ColumnFits(s, role, c) == ColumnFits(t, role, c)
    ensures Leftmost(s, role, n) == Leftmost(t, role, n)
  {
    if n > 0 {
      LeftmostAgrees(s, t, role, n - 1);
    }
  }

  /** Only the first 20 rows (the first spreadsheet row included) decide the columns. */
  lemma OnlySampledRowsMatter(s: Sheet, t: Sheet)
    requires s.WellFormed() && t.WellFormed() && s.width == t.width
    requires s.Head() == t.Head()
    ensures Resolve(s) == Resolve(t)
  {
    forall role, c | 0 <= c < s.width
      ensures ColumnFits(s, role, c) == ColumnFits(t, role, c)
    {
      assert Sample(s, c) == Sample(t, c);
    }
    LeftmostAgrees(s, t, PlacementId, s.width);
    LeftmostAgrees(s, t, Tag, s.width);
  }

  /** `t` is `s` with extra columns added on the right. */
  predicate ExtendsRight(s: Sheet, t: Sheet)
  {
    s.WellFormed() && t.WellFormed() && s.width <= t.width && |s.cells| == |t.cells|
    && forall r :: 0 <= r < |s.cells| ==> t.cells[r][..s.width] == s.cells[r]
  }

  /** Columns added on the right leave the sample of an existing column as it was. */
  lemma SampleKeptUnderRightExtension(s: Sheet, t: Sheet, c: nat)
    requires ExtendsRight(s, t) && c < s.width
    ensures Sample(t, c) == Sample(s, c)
  {
    forall r | 0 <= r < |s.cells| ensures t.cells[r][c] == s.cells[r][c] {
      assert t.cells[r][..s.width][c] == t.cells[r][c];
    }
    SampleIsLoweredHead(s, c);
    SampleIsLoweredHead(t, c);
  }

  /** A role found among the first `n` columns is kept while the scan goes on. */
  lemma LeftmostKept(s: Sheet, role: Role, n: nat, m: nat)
    requires s.WellFormed() && n <= m <= s.width
    requires Leftmost(s, role, n).Some?
    ensures Leftmost(s, role, m) == Leftmost(s, role, n)
  {
  }

  /** Later fitting columns never take a role that is already assigned. */
  lemma RolesKeptUnderRightExtension(s: Sheet, t: Sheet)
    requires ExtendsRight(s, t)
    requires Resolve(s).Found?
    ensures Resolve(t) == Resolve(s)
  {
    forall role, c | 0 <= c < s.width
      ensures ColumnFits(s, role, c) == ColumnFits(t, role, c)
    {
      SampleKeptUnderRightExtension(s, t, c);
    }
    LeftmostAgrees(s, t, PlacementId, s.width);
    LeftmostAgrees(s, t, Tag, s.width);
    LeftmostKept(t, PlacementId, s.width, t.width);
    LeftmostKept(t, Tag, s.width, t.width);
  }

  /** A column of IDs beside a column of tags: column 0 is the ID column, column 1 the tag column. */
  lemma TwoColumnExample()
    ensures Resolve(Sheet(2, [["12345", "http://a.com/[timestamp]"]])) == Found(0, 1)
  {
    var id, tag := "12345", "http://a.com/[timestamp]";
    var s := Sheet(2, [[id, tag]]);
    LowerOfLowerCase(id);
    LowerOfLowerCase(tag);
    assert Sample(s, 0) == [id] && Sample(s, 1) == [tag];
    assert tag[14..14 + |TagMarker|] == TagMarker;
    assert OccursAt(tag, TagMarker, 14);
    assert Fits(PlacementId, id);
    assert !Fits(Tag, id);
    assert !ColumnFits(s, Tag, 0);
    assert Fits(Tag, Sample(s, 1)[0]);
    assert ColumnFits(s, PlacementId, 0) && ColumnFits(s, Tag, 1);
    var r := Resolve(s);
    assert r.Found?;
    assert r.placementIdCol == 0;
    assert r.tagCol == 1;
  }

  /**
    The roles are chosen independently: one column holding both an ID cell and
    a tag cell takes both roles.
   */
  lemma SharedColumnExample()
    ensures Resolve(Sheet(1, [["54321"], ["x?t=[timestamp]"]])) == Found(0, 0)
  {
    var id, tag := "54321", "x?t=[timestamp]";
    var s := Sheet(1, [[id], [tag]]);
    LowerOfLowerCase(id);
    LowerOfLowerCase(tag);
    assert Sample(s, 0) == [id, tag];
    assert tag[5..5 + |TagMarker|] == TagMarker;
    assert OccursAt(tag, TagMarker, 5);
    assert Fits(PlacementId, Sample(s, 0)[0]);
    assert Fits(Tag, Sample(s, 0)[1]);
  }
}
