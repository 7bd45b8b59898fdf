/** Small editing rules of the context menu and of the audio upload. */
module Editing {
  import opened Wrappers

  /**
   * The name a button has after the Rename dialog: `prompt` answers `None`
   * when cancelled; only a non-empty answer replaces the name.
   */
  function Renamed(current: string, answer: Option<string>): (r: string)
    ensures answer.Some? && answer.value != "" ==> r == answer.value
    ensures answer.None? || answer.value == "" ==> r == current
    ensures current != "" ==> r != ""
  {
    if answer.Some? && answer.value != "" then answer.value else current
  }

  /**
   * `name.split('.')[0]`: the part of a file name before its first dot,
   * the whole name when it has none.
   */
  function UploadName(fileName: string): (r: string)
    ensures |r| <= |fileName| && r == fileName[..|r|]
    ensures '.' !in r
    ensures |r| < |fileName| ==> fileName[|r|] == '.'
    decreases |fileName|
  {
    if fileName == [] || fileName[0] == '.' then []
    else
      var rest := UploadName(fileName[1..]);
      [fileName[0]] + rest
  }

  /** Any prefix with the three properties of UploadName's result is that result. */
  lemma UploadNameUnique(fileName: string, p: string)
    requires |p| <= |fileName| && p == fileName[..|p|]
    requires '.' !in p
    requires |p| < |fileName| ==> fileName[|p|] == '.'
    ensures p == UploadName(fileName)
  {
    // Both are prefixes of the name, and the shorter one stops at a dot that the longer one would contain.
  }

  function StartsWith(s: string, prefix: string): bool {
    |prefix| <= |s| && s[..|prefix|] == prefix
  }

  /** Largest upload, in bytes. */
  const MAX_UPLOAD_SIZE: nat := 15000 * 1024

  /** An upload is taken when its MIME type starts with `audio/` and it is at most MAX_UPLOAD_SIZE bytes. */
  predicate UploadAccepted(mimeType: string, size: nat)
    ensures UploadAccepted(mimeType, size) <==>
      |mimeType| >= 6 && mimeType[..6] == "audio/" && size <= 15_360_000
  {
    StartsWith(mimeType, "audio/") && size <= MAX_UPLOAD_SIZE
  }
}
