# Tag-sheet cachebuster: a Dafny model

This project models the processing core of a small upload service for
advertising tag sheets. A user uploads an `.xlsx` sheet that maps placement
IDs to third-party ad tags. The service checks the file name, finds the
placement-ID column and the tag column by sampling cells, renames them, and
appends two columns: a copy of the placement IDs and the tag with every
case-insensitive `[timestamp]` replaced by the macro `%%CACHEBUSTER%%`.

Modules, one per piece of the handler:

- `Text`: ASCII lower-casing, ASCII digits, substring search.
- `Upload`: the upload-name check `allowed_file`.
- `Cachebuster`: the case-insensitive rewrite of a tag cell, with its facts:
  no residue, identity without a match (both directions), idempotence, and
  each match replaced where it stands with the text around it kept.
- `Resolver`: the column scan. `Leftmost` is the specification of one role's
  search, `Resolve` the outcome, and `ResolveColumns` the loop over the columns
  with its two "not yet assigned" guards, proved to compute `Resolve`.
- `Frame`: a `DataFrame` class holding column labels and rows, with in-place
  `Rename` and `InsertLast` (the two appends of a new last column).
- `Process`: `ProcessFile`, the handler end to end, returning a `Response`.

The sheet reaches the model as a `Sheet`: a width and rows of cells, every
cell already turned into text. The processed frame leaves it as labels and
rows inside `Response.Download`.

## Model

| member | source | states |
|---|---|---|
| `Upload.LastIndexOf` | app.py:16 | the index found holds the character and no later index does; None exactly when the character is absent (the split point of `rsplit('.', 1)`) |
| `Upload.Extension` | app.py:16 | `rsplit('.', 1)[1]` is a dot-free suffix that directly follows a '.' of the name |
| `Upload.ExtensionIsAfterLastDot` | app.py:16 | only one '.' is followed by a dot-free suffix, so that suffix is the extension |
| `Upload.AllowedFile` | app.py:15-16 | accepted exactly when some '.' is followed by a dot-free suffix whose lower-case form is in `{'xlsx'}` |
| `Upload.MixedCaseLastSuffixAccepted` | app.py:10-16 | `a.tar.XLSX` is accepted: only the last suffix counts and case is ignored |
| `Upload.BareExtensionRejected` | app.py:16 | `xlsx` without a dot is rejected |
| `Upload.OtherSuffixRejected` | app.py:10-16 | `sheet.xls` is rejected: `xls` is not in the allowed set |
| `Text.LowerSpec` | app.py:42 | lower-casing (`Text.Lower`) keeps the length, leaves no upper-case ASCII letter, turns each upper-case letter into the lower-case letter at the same place in the alphabet and keeps every other character |
| `Cachebuster.Cachebust` | app.py:61 | the rewrite never shortens a cell: every match gives way to the longer replacement |
| `Cachebuster.MixedCaseToken` | app.py:61 | `[TimeStamp]` matches the pattern under case-insensitive matching |
| `Cachebuster.PrefixBeforePercent` | app.py:61 | up to its first '%', the rewritten text equals the original text |
| `Cachebuster.NoTokenAfterBracketFreePrefix` | app.py:61 | text without '[' put in front of token-free text leaves it token-free |
| `Cachebuster.NoTokenLeft` | app.py:60-62 | the rewritten cell contains no case-insensitive `[timestamp]` |
| `Cachebuster.UnchangedIffNoToken` | app.py:60-62 | a cell comes back unchanged exactly when it contains no case-insensitive `[timestamp]` |
| `Cachebuster.Idempotent` | app.py:60-62 | rewriting a rewritten cell changes nothing |
| `Cachebuster.TokenYieldsReplacement` | app.py:60-62 | a cell holding the token comes out holding `%%CACHEBUSTER%%` |
| `Cachebuster.TokenReplacedInPlace` | app.py:61 | a match is replaced where it stands: token-free text before it is kept as it is, the token becomes `%%CACHEBUSTER%%`, and the rewrite goes on with the text after it |
| `Cachebuster.BracketFreePrefixCopied` | app.py:61 | text free of '[' in front of a cell is kept verbatim |
| `Cachebuster.BracketFreeCellKept` | app.py:61 | a cell without '[' holds no match and comes back unchanged |
| `Cachebuster.TokenCellExample` | app.py:61 | `cb=[TimeStamp]` becomes `cb=` followed by `%%CACHEBUSTER%%` |
| `Resolver.IsPlacementIdValue` | app.py:44 | a value passing the ID test (five or more digits and nothing else) is unchanged by lower-casing |
| `Resolver.TagTestIgnoresCase` | app.py:42-47 | the tag test applied to a lower-cased cell holds exactly when some nine-character window of the cell lower-cases to `timestamp`: case-insensitive containment |
| `Resolver.NoValueFitsBothRoles` | app.py:44-47 | no single cell passes both the ID test and the tag test |
| `Resolver.SampleIsLoweredHead` | app.py:42 | the sample of a column holds its first 20 cells (all of them in a shorter sheet), each lower-cased, in row order |
| `Resolver.ColumnFitsIffSampledCell` | app.py:42-47 | a column fits a role exactly when one of its first 20 cells, lower-cased, passes the role's test |
| `Resolver.Leftmost` | app.py:41-48 | after columns 0..n-1, a role holds the first column with a fitting sampled cell, and none before it fits; None exactly when no column so far fits |
| `Resolver.Resolve` | app.py:38-51 | both roles resolve to their leftmost fitting columns; `Missing` exactly when some role has no fitting column |
| `Resolver.ResolveColumns` | app.py:38-51 | the column loop with its two "not yet assigned" guards yields exactly `Resolve` |
| `Resolver.LeftmostAgrees` | app.py:41-48 | two sheets whose columns fit a role alike give that role the same column |
| `Resolver.OnlySampledRowsMatter` | app.py:36-42 | sheets that agree on their first 20 rows, the first spreadsheet row included, resolve alike |
| `Resolver.SampleKeptUnderRightExtension` | app.py:41-42 | adding columns on the right leaves the sample of every existing column as it was |
| `Resolver.LeftmostKept` | app.py:44-48 | once a role has a column, visiting more columns never changes it |
| `Resolver.RolesKeptUnderRightExtension` | app.py:41-48 | adding columns on the right never changes resolved roles: later matches never replace earlier ones |
| `Resolver.TwoColumnExample` | app.py:41-48 | IDs in column 0 and `[timestamp]` tags in column 1 resolve to (0, 1) |
| `Resolver.SharedColumnExample` | app.py:44-48 | the roles are chosen independently: one column holding an ID cell and a tag cell takes both roles |
| `Frame.Relabel` | app.py:53-56 | relabelling keeps the number and order of columns, gives each mapped label its new name, keeps every other label, and introduces no label that is neither old nor a value of the mapping |
| `Frame.IndexOf` | app.py:58-60 | the position of the first column carrying a label, None exactly when no column does (the KeyError case). In this handler the labels read are always distinct (positions plus at most one 'placement_id' and one 'tag'), so the first such column is the only one; pandas would return a frame rather than a column for a repeated label, which never arises here |
| `Frame.DataFrame.constructor` | app.py:36 | a sheet read without header gets labels 0..width-1 and its rows as they are |
| `Frame.DataFrame.Column` | app.py:58-60 | reading a column by a label the frame has gives one cell per row, all taken from a column that carries the label and has no earlier column with that label |
| `Frame.DataFrame.Rename` | app.py:53-56 | labels that are keys of the mapping are replaced; the cells are untouched |
| `Frame.DataFrame.InsertLast` | app.py:58-62 | a new last column: the label is appended and every row gains its value, nothing else changes |
| `Process.RenameOfPositions` | app.py:53-56 | with the dict display's last-key-wins rule, column t is named 'tag' and column p 'placement_id' unless p == t |
| `Process.FindRenamed` | app.py:53-60 | after the rename, 'placement_id' exists exactly when p != t and is then found at p; 'tag' is found at t |
| `Process.RenameResolved` | app.py:53-56 | the rename changes only labels, and leaves a 'placement_id' column exactly when the roles differ |
| `Process.AppendMapping` | app.py:58 | every row gains a copy of its placement-ID cell as a new last column |
| `Process.AppendCachebusted` | app.py:60-62 | every row then gains its tag cell with every `[timestamp]` rewritten, as the new last column; the frame stays well-formed |
| `Process.ProcessFile` | app.py:29-69 | refused or missing upload gives the invalid-file message; an unresolved role gives the missing-columns message and no table; both roles on one column fails the request; otherwise every original row and cell is kept in place, the row count is unchanged, the two resolved columns are renamed and exactly two columns are appended: the placement-ID copy, then the rewritten tag |

## Left out

- The web layer: the Flask app, the home page with its upload form, the reading of the uploaded file from the request, `send_file` and `app.run` (app.py:1-6, app.py:18-28, app.py:30, app.py:67, app.py:71-72). The upload arrives as an optional file name plus sheet, and the response is a value.
- File storage: the upload and output folders, saving the upload, and the `processed_` output path (app.py:8-9, app.py:12-13, app.py:33-34, app.py:64).
- Spreadsheet parsing and writing (`pd.read_excel`, `to_excel`, app.py:36 and app.py:65) and pandas' `astype(str)`: cells arrive as text, so the way pandas renders empty or numeric cells (`nan`, `12345.0`) is not modelled, and the sheet is rectangular because a pandas frame is.
- Lower-casing is ASCII only. For the letters that matter (`xlsx`, `timestamp`) this agrees with Python's `str.lower`; the Unicode case-insensitive matching of `re.IGNORECASE`, which also pairs a few non-ASCII letters with ASCII ones (the long s with `s`), is not modelled.
- `Resolver.IsPlacementIdValue`: `^\d{5,}$` is modelled as "five or more ASCII digits, nothing else"; Python's `\d` also matches other Unicode digits and its `$` also accepts one trailing newline.
- The KeyError raised by `df['placement_id']` when both roles land on one column is modelled as the `ServerError` response; Flask's error page is not.
- `Frame.DataFrame.Rename` updates the frame in place, where pandas returns a renamed copy that the handler assigns back to `df`; nothing else refers to the old frame, so the effect is the same.
- `Frame.DataFrame.InsertLast` requires a label the frame does not have, where pandas raises ValueError; the handler's two new labels never clash with the existing ones.
