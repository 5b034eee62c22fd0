/** The collection namer of the knowledge-base pipeline: a location (a file path,
    a directory path or a URL) is turned into the name of the Chroma collection
    that holds its chunks. */
module CollectionNaming {
  import opened PathText

  /** Fixed namespace prefix of every derived name. */
  const Prefix: string := "kb_"

  /** Longest name the derivation keeps (Chroma's limit). */
  const MaxLength: nat := 63

  /** Membership in the character class `[a-zA-Z0-9_]`. */
  predicate Allowed(c: char) {
    ('a' <= c <= 'z') || ('A' <= c <= 'Z') || ('0' <= c <= '9') || c == '_'
  }

  function SanitizeChar(c: char): char {
    if Allowed(c) then c else '_'
  }

  /** `re.sub(r'[^a-zA-Z0-9_]', '_', s)`: every character outside the class
      becomes exactly one underscore, every other one is kept. */
  function Sanitize(s: string): (r: string)
    ensures |r| == |s|
    ensures forall i :: 0 <= i < |s| ==> r[i] == (if Allowed(s[i]) then s[i] else '_')
    ensures forall i :: 0 <= i < |r| ==> Allowed(r[i])
  {
    if |s| == 0 then "" else [SanitizeChar(s[0])] + Sanitize(s[1..])
  }

  /** Python's slice `s[:n]`. */
  function Take(s: string, n: nat): (r: string)
    ensures |r| == if |s| <= n then |s| else n
    ensures r == s[..|r|]
  {
    if |s| <= n then s else s[..n]
  }

  /** The part of the location the name is built from: the basename for a
      directory, the basename before its first '.' otherwise. */
  function BaseName(location: string, isDir: bool): (r: string)
    ensures isDir ==> r == Basename(location)
    ensures !isDir ==> r == BeforeFirst(Basename(location), '.')
    ensures forall i :: 0 <= i < |r| ==> r[i] != '/'
  {
    if isDir then Basename(location) else BeforeFirst(Basename(location), '.')
  }

  /** The shape of every derived name: the prefix, at most `MaxLength`
      characters, all from `[A-Za-z0-9_]`. */
  predicate WellFormedName(name: string) {
    && 3 <= |name| <= MaxLength
    && name[..3] == Prefix
    && forall i :: 0 <= i < |name| ==> Allowed(name[i])
  }

  /** `f"kb_{Sanitize(base)}"[:63]`. */
  function NameFromBase(base: string): (r: string)
    ensures WellFormedName(r)
    ensures |r| == if 3 + |base| <= MaxLength then 3 + |base| else MaxLength
    ensures forall i :: 3 <= i < |r| ==> r[i] == SanitizeChar(base[i - 3])
  {
    var full := Prefix + Sanitize(base);
    var r := Take(full, MaxLength);
    assert r[..3] == Prefix by {
      assert r[..3] == full[..3];
    }
    assert forall i :: 3 <= i < |r| ==> r[i] == Sanitize(base)[i - 3] by {
      assert forall i :: 3 <= i < |r| ==> r[i] == full[i];
    }
    r
  }

  /** `_get_sanitized_collection_name`; `isDir` is the answer of `os.path.isdir`. */
  function CollectionName(location: string, isDir: bool): (r: string)
    ensures WellFormedName(r)
    ensures |r| == if 3 + |BaseName(location, isDir)| <= MaxLength then 3 + |BaseName(location, isDir)| else MaxLength
    ensures forall i :: 3 <= i < |r| ==> r[i] == SanitizeChar(BaseName(location, isDir)[i - 3])
  {
    NameFromBase(BaseName(location, isDir))
  }

  /** Sanitising a string that already lies in the class changes nothing, so
      sanitising is idempotent. */
  lemma {:induction false} SanitizeKeepsAllowed(s: string)
    requires forall i :: 0 <= i < |s| ==> Allowed(s[i])
    ensures Sanitize(s) == s
  {
    if |s| > 0 {
      SanitizeKeepsAllowed(s[1..]);
    }
  }

  lemma SanitizeIdempotent(s: string)
    ensures Sanitize(Sanitize(s)) == Sanitize(s)
  {
    SanitizeKeepsAllowed(Sanitize(s));
  }

  /** A derived name is its own sanitisation: no character of it needs replacing. */
  lemma CollectionNameIsSanitized(location: string, isDir: bool)
    ensures Sanitize(CollectionName(location, isDir)) == CollectionName(location, isDir)
  {
    SanitizeKeepsAllowed(CollectionName(location, isDir));
  }

  /** Before truncation the name is three characters longer than the base, and
      the base of a non-directory stops at its first '.'. */
  lemma UntruncatedLength(location: string, isDir: bool)
    requires |BaseName(location, isDir)| <= MaxLength - 3
    ensures |CollectionName(location, isDir)| == 3 + |BaseName(location, isDir)|
    ensures CollectionName(location, isDir) == Prefix + Sanitize(BaseName(location, isDir))
  {
    var r := CollectionName(location, isDir);
    var e := Prefix + Sanitize(BaseName(location, isDir));
    assert |r| == |e|;
    forall i | 0 <= i < |r| ensures r[i] == e[i] {
      if i < 3 {
        assert r[..3][i] == r[i];
      }
    }
  }

  /** Only the basename matters, and a file's name stops at its first '.':
      `docs/a.b.txt` names `kb_a`. */
  lemma MultiDotFile()
    ensures CollectionName("docs/a.b.txt", false) == "kb_a"
  {
    assert "docs/" + "a.b.txt" == "docs/a.b.txt";
    FileNamedA("docs/", "a.b.txt");
  }

  /** A dot file has an empty base: `.hidden` names `kb_`, which ends in '_'
      although the comment at the call site says Chroma wants names that end in
      a letter or digit. */
  lemma HiddenFile()
    ensures CollectionName(".hidden", false) == "kb_"
  {
    assert BaseName(".hidden", false) == "" by {
      assert "" + ".hidden" == ".hidden";
      AfterLastSegment("", ".hidden", '/');
    }
    UntruncatedLength(".hidden", false);
  }

  lemma DirectoryBase()
    ensures BaseName("/d/a b.c", true) == "a b.c"
  {
    assert "/d/" + "a b.c" == "/d/a b.c";
    AfterLastSegment("/d/", "a b.c", '/');
  }

  lemma SanitizeSpaceAndDot()
    ensures Sanitize("a b.c") == "a_b_c"
  {
    var t := Sanitize("a b.c");
    assert t[1] == '_' && t[3] == '_';
  }

  /** Every disallowed character becomes one underscore; a directory keeps its dots. */
  lemma DirectoryName()
    ensures CollectionName("/d/a b.c", true) == "kb_a_b_c"
  {
    DirectoryBase();
    SanitizeSpaceAndDot();
    UntruncatedLength("/d/a b.c", true);
  }

  /** The text before the first `sep` of a string whose second character is
      `sep` is its first character. */
  lemma BeforeFirstOneChar(s: string, sep: char)
    requires |s| >= 2 && s[0] != sep && s[1] == sep
    ensures BeforeFirst(s, sep) == [s[0]]
  {
    assert BeforeFirst(s[1..], sep) == "";
  }

  /** A file whose basename starts with `a.` names `kb_a`, whatever its
      directory and whatever follows the dot. */
  lemma FileNamedA(dir: string, name: string)
    requires |dir| == 0 || dir[|dir| - 1] == '/'
    requires |name| >= 2 && name[0] == 'a' && name[1] == '.'
    requires '/' !in name
    ensures CollectionName(dir + name, false) == "kb_a"
  {
    assert Basename(dir + name) == name by {
      assert forall i :: 0 <= i < |name| ==> name[i] != '/';
      AfterLastSegment(dir, name, '/');
    }
    assert BeforeFirst(name, '.') == "a" by {
      BeforeFirstOneChar(name, '.');
    }
    NameOfA();
  }

  /** The base `a` names `kb_a`. */
  lemma NameOfA()
    ensures NameFromBase("a") == "kb_a"
  {
    SanitizeKeepsAllowed("a");
  }

  /** Distinct locations can share a name: the extension is dropped, so
      `a.txt`, `a.pdf` and every other file named `a.` something land in the
      same collection. */
  lemma ExtensionsCollide(first: string, second: string)
    requires |first| >= 2 && first[0] == 'a' && first[1] == '.' && '/' !in first
    requires |second| >= 2 && second[0] == 'a' && second[1] == '.' && '/' !in second
    ensures CollectionName(first, false) == CollectionName(second, false) == "kb_a"
  {
    assert "" + first == first && "" + second == second;
    FileNamedA("", first);
    FileNamedA("", second);
  }
}
