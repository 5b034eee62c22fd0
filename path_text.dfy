/** The string primitives the pipeline applies to locations: Python's
    `s.split(sep)[-1]`, `s.split(sep)[0]`, `os.path.basename` and `str.lower`. */
module PathText {

  /** `s.split(sep)[-1]`: the text after the last `sep`, or all of `s` when it
      has none. `os.path.basename` is this with `sep == '/'`. */
  function AfterLast(s: string, sep: char): (r: string)
    ensures |r| <= |s| && r == s[|s| - |r|..]
    ensures forall i :: 0 <= i < |r| ==> r[i] != sep
    ensures |r| == |s| || s[|s| - |r| - 1] == sep
    decreases |s|
  {
    if |s| == 0 || s[|s| - 1] == sep then ""
    else AfterLast(s[..|s| - 1], sep) + [s[|s| - 1]]
  }

  /** `s.split(sep)[0]`: the text before the first `sep`, or all of `s` when it
      has none. */
  function BeforeFirst(s: string, sep: char): (r: string)
    ensures |r| <= |s| && r == s[..|r|]
    ensures forall i :: 0 <= i < |r| ==> r[i] != sep
    ensures |r| == |s| || s[|r|] == sep
  {
    if |s| == 0 || s[0] == sep then "" else [s[0]] + BeforeFirst(s[1..], sep)
  }

  /** `s.partition(sep)` without the separator: the text before the first
      `sep` and the text after it, or all of `s` and nothing when it has none. */
  function Partition(s: string, sep: char): (r: (string, string))
    ensures sep in s ==> s == r.0 + [sep] + r.1 && sep !in r.0
    ensures sep !in s ==> r == (s, "")
  {
    var before := BeforeFirst(s, sep);
    if |before| == |s| then
      assert before == s;
      (s, "")
    else
      assert s == before + [sep] + s[|before| + 1..];
      (before, s[|before| + 1..])
  }

  /** The first separator splits a string in one way only. */
  lemma PartitionAt(a: string, b: string, sep: char)
    requires sep !in a
    ensures Partition(a + [sep] + b, sep) == (a, b)
  {
    var s := a + [sep] + b;
    assert s[|a|] == sep;
    var r := Partition(s, sep);
    // Both `a` and `r.0` are separator-free prefixes of `s` followed by a
    // separator, so they end at the same place.
    assert forall k :: 0 <= k < |a| ==> s[k] == a[k];
    assert forall k :: 0 <= k < |r.0| ==> s[k] == r.0[k];
    assert s[|r.0|] == sep;
    assert |r.0| == |a|;
    assert r.0 == s[..|a|] == a;
    assert r.1 == s[|a| + 1..] == b;
  }

  /** POSIX `os.path.basename`. */
  function Basename(path: string): (r: string)
    ensures forall i :: 0 <= i < |r| ==> r[i] != '/'
  {
    AfterLast(path, '/')
  }

  /** The segment after a separator is what `AfterLast` returns: for `prefix`
      empty or ending in `sep` and `name` free of `sep`,
      `AfterLast(prefix + name, sep) == name`. */
  lemma {:induction false} AfterLastSegment(prefix: string, name: string, sep: char)
    requires |prefix| == 0 || prefix[|prefix| - 1] == sep
    requires forall i :: 0 <= i < |name| ==> name[i] != sep
    ensures AfterLast(prefix + name, sep) == name
  {
    if |name| == 0 {
      assert prefix + name == prefix;
    } else {
      var init := name[..|name| - 1];
      assert (prefix + name)[..|prefix + name| - 1] == prefix + init;
      AfterLastSegment(prefix, init, sep);
      assert name == init + name[|name| - 1..];
      assert name[|name| - 1..] == [name[|name| - 1]];
    }
  }

  /** ASCII case mapping of one character. */
  function LowerChar(c: char): char {
    if 'A' <= c <= 'Z' then (c as int + 32) as char else c
  }

  /** `str.lower`, restricted to ASCII letters. */
  function Lower(s: string): (r: string)
    ensures |r| == |s|
    ensures forall i :: 0 <= i < |s| ==> r[i] == LowerChar(s[i])
  {
    if |s| == 0 then "" else [LowerChar(s[0])] + Lower(s[1..])
  }

  /** Lowering leaves a string without ASCII capitals unchanged. */
  lemma {:induction false} LowerKeepsLowercase(s: string)
    requires forall i :: 0 <= i < |s| ==> !('A' <= s[i] <= 'Z')
    ensures Lower(s) == s
  {
    if |s| > 0 {
      LowerKeepsLowercase(s[1..]);
    }
  }
}
