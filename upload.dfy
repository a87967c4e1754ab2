/**
  The upload-name check `allowed_file` (app.py:15-16): a file name is accepted
  when it has a '.' and the text after the LAST '.' (what
  a single right-hand split at '.' yields), lower-cased, is an allowed extension.
 */
module Upload {
  import opened Text

  /** The set of allowed extensions (app.py:10). */
  const AllowedExtensions: set<string> := {"xlsx"}

  /** Index of the last occurrence of `c` in `s`, or None when `c` does not occur. */
  function LastIndexOf(s: string, c: char): (r: Option<nat>)
    ensures r.Some? ==> r.value < |s| && s[r.value] == c
    ensures r.Some? ==> forall j :: r.value < j < |s| ==> s[j] != c
    ensures r.None? <==> c !in s
    decreases |s|
  {
    if |s| == 0 then None
    else if s[|s| - 1] == c then Some(|s| - 1)
    else
      var r := LastIndexOf(s[..|s| - 1], c);
      assert forall j :: 0 <= j < |s| - 1 ==> s[..|s| - 1][j] == s[j];
      r
  }

  /** The text after the last '.' of a name that contains one. */
  function Extension(filename: string): (ext: string)
    requires '.' in filename
    ensures '.' !in ext
    ensures exists i :: 0 <= i < |filename| && filename[i] == '.' && ext == filename[i + 1..]
  {
    var i := LastIndexOf(filename, '.').value;
    filename[i + 1..]
  }

  /**
    The upload-name check: true exactly when some '.' of the name is
    followed by a dot-free suffix whose lower-case form is allowed.
   */
  function AllowedFile(filename: string): (ok: bool)
    ensures ok <==> exists i :: 0 <= i < |filename| && filename[i] == '.'
                     && '.' !in filename[i + 1..]
                     && Lower(filename[i + 1..]) in AllowedExtensions
  {
    if '.' in filename then
      var ext := Extension(filename);
      ExtensionIsAfterLastDot(filename);
      Lower(ext) in AllowedExtensions
    else
      false
  }

  /** Only one '.' is followed by a dot-free suffix: the last one. */
  lemma ExtensionIsAfterLastDot(filename: string)
    requires '.' in filename
    ensures forall i :: 0 <= i < |filename| && filename[i] == '.' && '.' !in filename[i + 1..]
              ==> filename[i + 1..] == Extension(filename)
  {
  }

  /** The suffix is compared case-insensitively, and only the text after the last dot counts. */
  lemma MixedCaseLastSuffixAccepted()
    ensures AllowedFile("a.tar.XLSX")
  {
    var name := "a.tar.XLSX";
    assert name[..9] == "a.tar.XLS" && name[..8] == "a.tar.XL" && name[..7] == "a.tar.X";
    assert name[..6] == "a.tar.";
    assert LastIndexOf("a.tar.", '.') == Some(5);
    assert LastIndexOf("a.tar.X", '.') == Some(5);
    assert LastIndexOf("a.tar.XL", '.') == Some(5);
    assert LastIndexOf("a.tar.XLS", '.') == Some(5);
    assert LastIndexOf(name, '.') == Some(5);
    assert Lower("XLSX") == "xlsx";
  }

  /** A name without a dot is rejected, even when it spells the extension. */
  lemma BareExtensionRejected()
    ensures !AllowedFile("xlsx")
  {
  }

  /** The older spreadsheet suffix is not in the allowed set. */
  lemma OtherSuffixRejected()
    ensures !AllowedFile("sheet.xls")
  {
    assert LastIndexOf("sheet.xls", '.') == Some(5);
  }
}
