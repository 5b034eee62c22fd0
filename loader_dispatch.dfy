/** The choice of document reader in `document_loader`: a closed selection over
    the directory flag, the declared file type and the location's extension. */
module LoaderDispatch {
  import opened Wrappers
  import opened PathText

  /** The five readers the pipeline can build: a recursive directory reader over
      every .pdf or every .txt file below it, a PDF reader, a UTF-8 text reader, a web page reader. */
  datatype LoaderKind = DirPdf | DirTxt | Pdf | Txt | Web

  /** The two `ValueError`s `document_loader` raises. */
  datatype LoaderError =
    | DirectoryTypeRequired            // a directory without file_type "pdf" or "txt"
    | UnsupportedSource(location: string)  // "Unsupported file type or invalid path"

  /** `file_path_or_url.split(".")[-1].lower()`. */
  function Extension(location: string): (r: string)
    ensures |r| <= |location|
    ensures forall i :: 0 <= i < |r| ==> r[i] != '.'
  {
    Lower(AfterLast(location, '.'))
  }

  /** The branch structure of `document_loader` before `loader.load()`;
      `isDir` is the answer of `os.path.isdir`, `fileType` the optional argument
      (Python's default `None` is `None`). */
  function SelectLoader(location: string, isDir: bool, fileType: Option<string>): (r: Result<LoaderKind, LoaderError>)
    ensures isDir ==> (r == Ok(DirPdf) <==> fileType == Some("pdf"))
    ensures isDir ==> (r == Ok(DirTxt) <==> fileType == Some("txt"))
    ensures isDir ==> (r.Err? <==> fileType !in {Some("pdf"), Some("txt")})
    ensures isDir && r.Err? ==> r.error == DirectoryTypeRequired
    ensures !isDir ==> r.Err? || r.value in {Pdf, Txt, Web}
    ensures !isDir && r.Err? ==> r.error == UnsupportedSource(location)
  {
    if isDir then
      if fileType == Some("pdf") then Ok(DirPdf)
      else if fileType == Some("txt") then Ok(DirTxt)
      else Err(DirectoryTypeRequired)
    else
      var ext := Extension(location);
      if ext == "pdf" then Ok(Pdf)
      else if ext == "txt" then Ok(Txt)
      else if "http" <= ext then Ok(Web)
      else Err(UnsupportedSource(location))
  }

  /** A reference reading of "has extension `ext`", independent of how the last
      segment is cut out: either the whole location is `ext` up to ASCII case (it
      has no '.'), or it ends in '.' followed by `ext` up to ASCII case. */
  predicate EndsWithExtension(location: string, ext: string) {
    || Lower(location) == ext
    || (|location| > |ext| && location[|location| - |ext| - 1] == '.'
        && Lower(location[|location| - |ext|..]) == ext)
  }

  /** Lowering neither creates nor removes a '.'. */
  lemma DotFreeWhenLowerIs(s: string)
    requires forall i :: 0 <= i < |Lower(s)| ==> Lower(s)[i] != '.'
    ensures forall i :: 0 <= i < |s| ==> s[i] != '.'
  {
    forall i | 0 <= i < |s| ensures s[i] != '.' {
      assert Lower(s)[i] == LowerChar(s[i]);
    }
  }

  /** What `Extension` returns is one of the two shapes of the reference reading. */
  lemma ExtensionIsSuffix(location: string)
    ensures EndsWithExtension(location, Extension(location))
  {
    var seg := AfterLast(location, '.');
    var ext := Extension(location);
    assert ext == Lower(seg) && |ext| == |seg|;
    var cut := |location| - |seg|;
    if cut == 0 {
      assert seg == location by {
        assert location[cut..] == location;
      }
      assert Lower(location) == ext;
    } else {
      assert location[cut - 1] == '.' && location[cut..] == seg;
      assert |location| > |ext| && location[|location| - |ext| - 1] == '.' && Lower(location[|location| - |ext|..]) == ext;
    }
  }

  /** A location without '.' is its own extension, up to case. */
  lemma WholeLocationIsExtension(location: string, ext: string)
    requires '.' !in ext
    requires Lower(location) == ext
    ensures Extension(location) == ext
  {
    DotFreeWhenLowerIs(location);
    assert "" + location == location;
    AfterLastSegment("", location, '.');
  }

  /** The text after a final '.' is the extension, up to case. */
  lemma DottedSuffixIsExtension(location: string, ext: string)
    requires '.' !in ext
    requires |location| > |ext| && location[|location| - |ext| - 1] == '.'
    requires Lower(location[|location| - |ext|..]) == ext
    ensures Extension(location) == ext
  {
    var cut := |location| - |ext|;
    var tail := location[cut..];
    DotFreeWhenLowerIs(tail);
    assert location[..cut] + tail == location;
    AfterLastSegment(location[..cut], tail, '.');
  }

  /** `Extension` agrees with the reference reading for every extension free of '.'. */
  lemma ExtensionMatches(location: string, ext: string)
    requires '.' !in ext
    ensures Extension(location) == ext <==> EndsWithExtension(location, ext)
  {
    ExtensionIsSuffix(location);
    if Lower(location) == ext {
      WholeLocationIsExtension(location, ext);
    } else if |location| > |ext| && location[|location| - |ext| - 1] == '.'
              && Lower(location[|location| - |ext|..]) == ext {
      DottedSuffixIsExtension(location, ext);
    }
  }

  /** For a file, the PDF reader is chosen exactly when the location ends in
      `.pdf` in any ASCII case, or is `pdf` with no dot at all. */
  lemma FileSelectsPdf(location: string, fileType: Option<string>)
    ensures SelectLoader(location, false, fileType) == Ok(Pdf) <==> EndsWithExtension(location, "pdf")
  {
    ExtensionMatches(location, "pdf");
    if Extension(location) == "pdf" {
      assert SelectLoader(location, false, fileType) == Ok(Pdf);
    } else {
      assert SelectLoader(location, false, fileType) != Ok(Pdf);
    }
  }

  /** Likewise the text reader and `.txt`. */
  lemma FileSelectsTxt(location: string, fileType: Option<string>)
    ensures SelectLoader(location, false, fileType) == Ok(Txt) <==> EndsWithExtension(location, "txt")
  {
    ExtensionMatches(location, "txt");
    if Extension(location) == "txt" {
      assert SelectLoader(location, false, fileType) == Ok(Txt);
    } else {
      assert SelectLoader(location, false, fileType) != Ok(Txt);
    }
  }

  /** The web reader is chosen exactly when the lowered last segment starts with
      `http`; the declared file type plays no part for a non-directory. */
  lemma FileSelectsWeb(location: string, fileType: Option<string>)
    ensures SelectLoader(location, false, fileType) == Ok(Web) <==> "http" <= Extension(location)
    ensures SelectLoader(location, false, fileType) == SelectLoader(location, false, None)
  {
  }

  /** A URL with a dot in its host is cut at that dot: `https://example.com`
      is rejected, its extension being `com`. */
  lemma DottedUrlRejected()
    ensures SelectLoader("https://example.com", false, None) == Err(UnsupportedSource("https://example.com"))
  {
    var u := "https://example.com";
    assert Extension(u) == "com" by {
      assert u[..16] + "com" == u;
      AfterLastSegment(u[..16], "com", '.');
    }
  }

  /** A URL with neither a '.' nor a capital letter, such as `http://localhost:8000/docs`,
      is its own extension and goes to the web reader. */
  lemma DotFreeUrlAccepted(url: string, fileType: Option<string>)
    requires "http" <= url
    requires forall i :: 0 <= i < |url| ==> url[i] != '.' && !('A' <= url[i] <= 'Z')
    ensures SelectLoader(url, false, fileType) == Ok(Web)
  {
    LowerKeepsLowercase(url);
    WholeLocationIsExtension(url, url);
  }

  lemma UpperCasePdfExtension()
    ensures Extension("A.PDF") == "pdf"
  {
    var loc := "A.PDF";
    assert loc[2..] == "PDF";
    var low := Lower("PDF");
    assert low[0] == 'p' && low[1] == 'd' && low[2] == 'f';
    DottedSuffixIsExtension(loc, "pdf");
  }

  lemma DocxExtension()
    ensures Extension("notes.docx") == "docx"
  {
    assert "notes.docx"[6..] == "docx";
    LowerKeepsLowercase("docx");
    DottedSuffixIsExtension("notes.docx", "docx");
  }

  /** Case does not matter for the extension: `A.PDF` goes to the PDF
      reader; `notes.docx` is rejected before anything is read, whatever the
      declared type. */
  lemma CaseAndUnsupportedExamples()
    ensures SelectLoader("A.PDF", false, None) == Ok(Pdf)
    ensures SelectLoader("notes.docx", false, Some("pdf")) == Err(UnsupportedSource("notes.docx"))
  {
    UpperCasePdfExtension();
    DocxExtension();
  }
}
