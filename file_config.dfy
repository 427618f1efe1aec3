/**
 * The upload allow-list of src/utils/fileConfig.ts: a fixed table of MIME
 * types, a list of accepted file-name extensions, and three classifiers over
 * an uploaded file (text or not, supported or not, which icon to show).
 */
module FileConfig {

  /** The three icon components the table refers to, as tags. */
  datatype Icon = DocumentIcon | PhotoIcon | TableCellsIcon

  /** One entry of the MIME table: icon, display label and canonical MIME type. */
  datatype FileTypeConfig = FileTypeConfig(icon: Icon, typeLabel: string, mimeType: string)

  /** A file as the browser reports it: its name, its client-reported MIME type and its size in bytes. */
  datatype UploadedFile = UploadedFile(name: string, mimeType: string, size: nat)

  /** The MIME table, with exactly its eight keys. */
  const SupportedFileTypes: map<string, FileTypeConfig> := map[
    "image/jpeg" := FileTypeConfig(PhotoIcon, "圖片", "image/jpeg"),
    "image/png" := FileTypeConfig(PhotoIcon, "圖片", "image/png"),
    "image/gif" := FileTypeConfig(PhotoIcon, "圖片", "image/gif"),
    "image/webp" := FileTypeConfig(PhotoIcon, "圖片", "image/webp"),
    "text/plain" := FileTypeConfig(DocumentIcon, "文字檔案", "text/plain"),
    "application/pdf" := FileTypeConfig(DocumentIcon, "PDF", "application/pdf"),
    "text/csv" := FileTypeConfig(TableCellsIcon, "CSV", "text/csv"),
    "application/vnd.ms-excel" := FileTypeConfig(TableCellsIcon, "CSV", "text/csv")
  ]

  /** The file-name extensions accepted whatever the reported type. */
  const SupportedExtensions: seq<string> := [".csv", ".txt"]

  /** The image types of the table: supported, shown with the photo icon, never text. */
  const ImageTypes: set<string> := {"image/jpeg", "image/png", "image/gif", "image/webp"}

  /** The MIME types `isTextFile` compares against. */
  const TextTypes: set<string> := {"text/csv", "application/vnd.ms-excel", "text/plain"}

  /** `toLowerCase` on one character; only A-Z change (see README for why that is enough here). */
  function LowerChar(c: char): (r: char)
    ensures 'A' <= c <= 'Z' ==> 'a' <= r <= 'z' && r as int - c as int == 32
    ensures !('A' <= c <= 'Z') ==> r == c
  {
    if 'A' <= c <= 'Z' then (c as int + 32) as char else c
  }

  /** `toLowerCase` on a string, character by character. */
  function ToLower(s: string): (r: string)
    ensures |r| == |s|
    ensures forall i :: 0 <= i < |s| ==> r[i] == LowerChar(s[i])
  {
    if s == [] then [] else [LowerChar(s[0])] + ToLower(s[1..])
  }

  /** `String.prototype.endsWith`. */
  predicate EndsWith(s: string, suffix: string) {
    |suffix| <= |s| && s[|s| - |suffix|..] == suffix
  }

  /** `exts.some(ext => s.endsWith(ext))`. */
  function AnyEndsWith(s: string, exts: seq<string>): (r: bool)
    ensures r <==> exists i :: 0 <= i < |exts| && EndsWith(s, exts[i])
  {
    if exts == [] then false else EndsWith(s, exts[0]) || AnyEndsWith(s, exts[1..])
  }

  /** `isTextFile`: an exact text MIME type, or a `.csv`/`.txt` name in any letter case; every text file is supported. */
  predicate IsTextFile(f: UploadedFile)
    ensures IsTextFile(f) ==> IsFileSupported(f)
  {
    || f.mimeType == "text/csv"
    || f.mimeType == "application/vnd.ms-excel"
    || f.mimeType == "text/plain"
    || EndsWith(ToLower(f.name), ".csv")
    || EndsWith(ToLower(f.name), ".txt")
  }

  /** `isFileSupported`: a key of the MIME table, or a name ending in a supported extension. */
  predicate IsFileSupported(f: UploadedFile)
    ensures IsFileSupported(f) <==>
              || f.mimeType in SupportedFileTypes
              || EndsWith(ToLower(f.name), ".csv")
              || EndsWith(ToLower(f.name), ".txt")
  {
    assert SupportedExtensions[0] == ".csv" && SupportedExtensions[1] == ".txt";
    f.mimeType in SupportedFileTypes || AnyEndsWith(ToLower(f.name), SupportedExtensions)
  }

  /** `getFileIcon`: the table's icon, else the table icon for a `.csv` name, else the document icon. */
  function GetFileIcon(f: UploadedFile): (r: Icon)
    ensures r == PhotoIcon <==> f.mimeType in ImageTypes
    ensures r == TableCellsIcon <==>
              || f.mimeType in {"text/csv", "application/vnd.ms-excel"}
              || (f.mimeType !in SupportedFileTypes && EndsWith(ToLower(f.name), ".csv"))
    ensures r == DocumentIcon <==>
              || f.mimeType in {"text/plain", "application/pdf"}
              || (f.mimeType !in SupportedFileTypes && !EndsWith(ToLower(f.name), ".csv"))
  {
    if f.mimeType in SupportedFileTypes then SupportedFileTypes[f.mimeType].icon
    else if EndsWith(ToLower(f.name), ".csv") then TableCellsIcon
    else DocumentIcon
  }

  /** Lower-casing distributes over concatenation. */
  lemma {:induction false} ToLowerAppend(s: string, t: string)
    ensures ToLower(s + t) == ToLower(s) + ToLower(t)
  {
    var l, r := ToLower(s + t), ToLower(s) + ToLower(t);
    assert |l| == |r|;
    forall i | 0 <= i < |l| ensures l[i] == r[i] {
      if i < |s| {
        assert (s + t)[i] == s[i];
      } else {
        assert (s + t)[i] == t[i - |s|];
      }
    }
  }

  /** A name ending in some letter-case spelling of `ext` ends in `ext` once lower-cased. */
  lemma EndsWithAfterLower(prefix: string, ext: string, lowered: string)
    requires ToLower(ext) == lowered
    ensures EndsWith(ToLower(prefix + ext), lowered)
  {
    ToLowerAppend(prefix, ext);
    var n := ToLower(prefix + ext);
    assert n[|n| - |lowered|..] == ToLower(ext);
  }

  /** A text MIME type makes a file text, whatever its name. */
  lemma TextByType(f: UploadedFile)
    requires f.mimeType in TextTypes
    ensures IsTextFile(f)
  {
  }

  /** A `.csv` or `.txt` name in any letter case makes a file text, whatever its type (so `DATA.CSV` counts). */
  lemma TextByName(prefix: string, ext: string, mimeType: string, size: nat)
    requires ToLower(ext) == ".csv" || ToLower(ext) == ".txt"
    ensures IsTextFile(UploadedFile(prefix + ext, mimeType, size))
  {
    EndsWithAfterLower(prefix, ext, ToLower(ext));
  }

  /** No other combination is text. */
  lemma NotTextOtherwise(f: UploadedFile)
    requires f.mimeType !in TextTypes
    requires !EndsWith(ToLower(f.name), ".csv") && !EndsWith(ToLower(f.name), ".txt")
    ensures !IsTextFile(f)
  {
  }

  /** `isFileSupported` with the table keys and the extension list written out. */
  lemma SupportedIff(f: UploadedFile)
    ensures IsFileSupported(f) <==>
              || f.mimeType in {"image/jpeg", "image/png", "image/gif", "image/webp",
                                "text/plain", "application/pdf", "text/csv", "application/vnd.ms-excel"}
              || EndsWith(ToLower(f.name), ".csv")
              || EndsWith(ToLower(f.name), ".txt")
  {
    assert SupportedExtensions[0] == ".csv" && SupportedExtensions[1] == ".txt";
  }

  /** Supported does not imply text: the image types and PDF, under a name with neither text extension. */
  lemma SupportedButNotText(f: UploadedFile)
    requires f.mimeType in ImageTypes || f.mimeType == "application/pdf"
    requires !EndsWith(ToLower(f.name), ".csv") && !EndsWith(ToLower(f.name), ".txt")
    ensures IsFileSupported(f) && !IsTextFile(f)
  {
  }

  /** A string without upper-case ASCII letters is its own lower-case form. */
  lemma LowerOfLowerCase(s: string)
    requires forall i :: 0 <= i < |s| ==> !('A' <= s[i] <= 'Z')
    ensures ToLower(s) == s
  {
  }

  /** The type is compared exactly: `TEXT/PLAIN` is neither text nor supported under a plain name. */
  lemma TypeIsCaseSensitive()
    ensures !IsFileSupported(UploadedFile("notes", "TEXT/PLAIN", 0))
    ensures !IsTextFile(UploadedFile("notes", "TEXT/PLAIN", 0))
  {
    LowerOfLowerCase("notes");
    assert "TEXT/PLAIN" !in SupportedFileTypes;
  }

  /** `.CSV` lower-cases to `.csv`. */
  lemma LowerOfUpperCsv()
    ensures ToLower(".CSV") == ".csv"
  {
    var l := ToLower(".CSV");
    assert l[0] == '.' && l[1] == 'c' && l[2] == 's' && l[3] == 'v';
  }

  /**
   * The name is compared without regard to letter case: any name ending in
   * `.CSV` (such as `DATA.CSV`) is text and supported, whatever its type.
   */
  lemma NameIsCaseInsensitive(prefix: string, mimeType: string, size: nat)
    ensures IsTextFile(UploadedFile(prefix + ".CSV", mimeType, size))
    ensures IsFileSupported(UploadedFile(prefix + ".CSV", mimeType, size))
  {
    LowerOfUpperCsv();
    TextByName(prefix, ".CSV", mimeType, size);
  }

  /** `photo.png` reported as `image/png` is not text, though it is supported. */
  lemma PhotoIsNotText()
    ensures !IsTextFile(UploadedFile("photo.png", "image/png", 0))
    ensures IsFileSupported(UploadedFile("photo.png", "image/png", 0))
  {
    LowerOfLowerCase("photo.png");
    SupportedButNotText(UploadedFile("photo.png", "image/png", 0));
  }

  /** Any icon other than the document icon is shown only for a supported file. */
  lemma SpecialIconImpliesSupported(f: UploadedFile)
    ensures GetFileIcon(f) != DocumentIcon ==> IsFileSupported(f)
  {
    SupportedIff(f);
  }

  /** A `.txt` file of unknown type gets the document icon, though it is text and supported. */
  lemma TxtOfUnknownTypeIsDocument(prefix: string, mimeType: string, size: nat)
    requires mimeType !in SupportedFileTypes
    ensures var f := UploadedFile(prefix + ".txt", mimeType, size);
            GetFileIcon(f) == DocumentIcon && IsTextFile(f) && IsFileSupported(f)
  {
    var f := UploadedFile(prefix + ".txt", mimeType, size);
    LowerOfLowerCase(".txt");
    EndsWithAfterLower(prefix, ".txt", ".txt");
  }
}
