/** `DocumentLoader` (app/utils/document_loader.py): which uploads are
    accepted, by the extension of their file name and by their size, and the
    checks `load_from_bytes` makes before it hands the bytes to a text
    extractor.

    File names follow `pathlib.PurePosixPath`: the name is the last
    component that is neither empty nor ".", and the suffix is the part of
    the name from its last dot, when that dot is neither the first nor the
    last character. The text extractors themselves are a parameter. */
module DocumentLoader {
  import opened Wrappers
  import opened Strings

  const SupportedExtensions: seq<string> := [".txt", ".pdf", ".docx", ".doc"]
  const MaxFileSizeMb: nat := 10
  const BytesPerMb: nat := 1024 * 1024

  // ---------------------------------------------------------------------
  // File names.

  /** The text after the last slash; the whole path when it has none. */
  function AfterLastSlash(path: string): (r: string)
    ensures |r| <= |path| && r == path[|path| - |r|..]
    ensures forall k :: 0 <= k < |r| ==> r[k] != '/'
    ensures |r| < |path| ==> path[|path| - |r| - 1] == '/'
  {
    if path == [] || path[|path| - 1] == '/' then []
    else AfterLastSlash(path[..|path| - 1]) + [path[|path| - 1]]
  }

  /** `Path(path).name`: components that are empty or "." are skipped. */
  function Name(path: string): (r: string)
    ensures forall k :: 0 <= k < |r| ==> r[k] != '/'
    ensures r != "."
    decreases |path|
  {
    var last := AfterLastSlash(path);
    if last == "" || last == "." then
      (if |last| < |path| then Name(path[..|path| - |last| - 1]) else "")
    else last
  }

  /** `s.rfind(c)`: the last position of `c` in `s`, or -1. */
  function RFind(s: string, c: char): (i: int)
    ensures -1 <= i < |s|
    ensures 0 <= i ==> s[i] == c
    ensures forall k :: i < k < |s| ==> s[k] != c
  {
    if s == [] then -1
    else if s[|s| - 1] == c then |s| - 1
    else RFind(s[..|s| - 1], c)
  }

  /** The suffix of a file name: from its last dot, when that dot is neither
      the first nor the last character, else empty. */
  function SuffixOf(name: string): (r: string)
    ensures r == [] || (r[0] == '.' && 2 <= |r| < |name| && r == name[|name| - |r|..])
    ensures forall k :: 1 <= k < |r| ==> r[k] != '.'
  {
    var i := RFind(name, '.');
    if 0 < i < |name| - 1 then name[i..] else ""
  }

  /** `Path(filename).suffix`. */
  function Suffix(filename: string): string {
    SuffixOf(Name(filename))
  }

  /** A name made of a non-empty stem and a dotted extension with no further
      dot has that extension as its suffix. */
  lemma SuffixOfExtension(stem: string, ext: string)
    requires stem != [] && |ext| >= 2 && ext[0] == '.'
    requires forall k :: 1 <= k < |ext| ==> ext[k] != '.'
    ensures SuffixOf(stem + ext) == ext
  {
    var name := stem + ext;
    var i := RFind(name, '.');
    assert name[|stem|] == '.';
    assert i == |stem|;
    assert name[i..] == ext;
  }

  // ---------------------------------------------------------------------
  // The two predicates.

  /** A file name whose lower-cased suffix is one of the four extensions. */
  predicate SupportedName(name: string) {
    LowerStr(SuffixOf(name)) in SupportedExtensions
  }

  /** `is_supported`. */
  function IsSupported(filename: string): bool {
    SupportedName(Name(filename))
  }

  lemma SupportedByExtension(filename: string)
    ensures IsSupported(filename) == (LowerStr(Suffix(filename)) in SupportedExtensions)
  {
  }

  /** The four extensions are a dot and letters. */
  lemma ExtensionShape(e: string) returns (k: nat)
    requires e in SupportedExtensions
    ensures k < |SupportedExtensions| && SupportedExtensions[k] == e
    ensures |e| >= 2 && e[0] == '.' && forall j :: 1 <= j < |e| ==> e[j] != '.'
  {
    k :| 0 <= k < |SupportedExtensions| && SupportedExtensions[k] == e;
  }

  /** A supported name is a non-empty stem followed by one of the four
      extensions, in any case. */
  lemma SupportedHasExtension(name: string) returns (k: nat)
    requires SupportedName(name)
    ensures k < |SupportedExtensions|
    ensures var e := SupportedExtensions[k];
      && |e| < |name|
      && LowerStr(name[|name| - |e|..]) == e
  {
    var s := SuffixOf(name);
    var e := LowerStr(s);
    k :| 0 <= k < |SupportedExtensions| && SupportedExtensions[k] == e;
    assert |s| == |e|;
    assert s != [];
  }

  lemma LowerDot(c: char)
    ensures Lower(c) == '.' <==> c == '.'
  {
  }

  /** Any name of a non-empty stem and one of the four extensions, in any
      case, is supported. */
  lemma ExtensionIsSupported(stem: string, ext: string)
    requires stem != [] && LowerStr(ext) in SupportedExtensions
    ensures SupportedName(stem + ext)
  {
    var lower := LowerStr(ext);
    var _ := ExtensionShape(lower);
    forall j | 0 <= j < |ext| ensures ext[j] == '.' <==> lower[j] == '.' {
      LowerDot(ext[j]);
    }
    SuffixOfExtension(stem, ext);
  }

  /** `validate_file_size`: at most ten mebibytes. */
  function ValidateFileSize(fileSize: int): (r: bool)
    ensures r <==> fileSize <= 10485760
  {
    fileSize <= MaxFileSizeMb * 1024 * 1024
  }

  // ---------------------------------------------------------------------
  // `load_from_bytes`.

  /** The three extractors: plain text, PDF, and Word (for both Word
      extensions). */
  datatype Format = Txt | Pdf | Docx

  function FormatOf(ext: string): Option<Format> {
    if ext == ".txt" then Some(Txt)
    else if ext == ".pdf" then Some(Pdf)
    else if ext == ".docx" || ext == ".doc" then Some(Docx)
    else None
  }

  /** Every supported extension has an extractor. */
  lemma SupportedHasFormat(filename: string)
    requires IsSupported(filename)
    ensures FormatOf(LowerStr(Suffix(filename))).Some?
  {
    ExtensionHasFormat(LowerStr(Suffix(filename)));
  }

  lemma ExtensionHasFormat(e: string)
    requires e in SupportedExtensions
    ensures FormatOf(e).Some?
  {
  }

  const TooLargeMessage: string := "File too large. Maximum size: 10MB"

  /** `load_from_bytes`, with `extract` standing for the extractor of each
      format. An unsupported name is refused first, then an oversize payload;
      only then are the bytes read, and an extractor error is wrapped. */
  function LoadFromBytes(fileBytes: seq<bv8>, filename: string,
                         extract: (Format, seq<bv8>) -> Result<string, string>)
    : (r: Result<string, string>)
    ensures !IsSupported(filename) ==> r == Failure("Unsupported file type: " + Suffix(filename))
    ensures IsSupported(filename) && !ValidateFileSize(|fileBytes|) ==> r == Failure(TooLargeMessage)
    ensures r.Success? ==>
      && IsSupported(filename) && |fileBytes| <= 10485760
      && FormatOf(LowerStr(Suffix(filename))).Some?
      && extract(FormatOf(LowerStr(Suffix(filename))).value, fileBytes) == Success(r.value)
  {
    if !IsSupported(filename) then Failure("Unsupported file type: " + Suffix(filename))
    else if !ValidateFileSize(|fileBytes|) then Failure(TooLargeMessage)
    else
      SupportedHasFormat(filename);
      var ext := LowerStr(Suffix(filename));
      match FormatOf(ext)
      case None => Failure("Failed to load document: Unsupported extension: " + ext)
      case Some(format) =>
        match extract(format, fileBytes)
        case Success(text) => Success(text)
        case Failure(e) => Failure("Failed to load document: " + e)
  }

  /** When either check refuses, no extractor is consulted: any two give
      the same answer. */
  lemma LoadChecksFirst(fileBytes: seq<bv8>, filename: string,
                        extract1: (Format, seq<bv8>) -> Result<string, string>,
                        extract2: (Format, seq<bv8>) -> Result<string, string>)
    requires !IsSupported(filename) || !ValidateFileSize(|fileBytes|)
    ensures LoadFromBytes(fileBytes, filename, extract1) == LoadFromBytes(fileBytes, filename, extract2)
    ensures LoadFromBytes(fileBytes, filename, extract1).Failure?
  {
  }

  // ---------------------------------------------------------------------
  // `get_file_info`.

  datatype FileInfo = FileInfo(
    filename: string,
    extension: string,
    sizeBytes: int,
    sizeMb: real,
    isSupported: bool,
    isValidSize: bool)

  /** `get_file_info`, before rounding the size in mebibytes. */
  function GetFileInfo(filename: string, fileSize: int): (r: FileInfo)
    ensures r.isSupported == IsSupported(filename)
    ensures r.isValidSize == ValidateFileSize(fileSize)
    ensures r.extension == LowerStr(Suffix(filename)) && r.filename == filename
    ensures r.sizeBytes == fileSize && r.sizeMb * 1048576.0 == fileSize as real
  {
    var ext := LowerStr(Suffix(filename));
    SupportedByExtension(filename);
    FileInfo(
      filename, ext, fileSize, fileSize as real / 1048576.0,
      ext in SupportedExtensions, fileSize <= MaxFileSizeMb * BytesPerMb)
  }
}
