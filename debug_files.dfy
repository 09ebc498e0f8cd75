/** The file name `save_debug_html` of backend/scraper.py gives to the
    evidence it saves. The file write and the clock are outside the model:
    the timestamp is an input. Python's `str.isalnum` is Unicode-aware, so
    the classifier is a parameter `isAlnum`. */
module DebugFiles {
  import opened Wrappers
  import opened Text

  /** The longest sanitised keyword that ends up in a file name. */
  const MaxKeywordChars: nat := 80

  function SafeChar(c: char, isAlnum: char -> bool): char {
    if isAlnum(c) then c else '_'
  }

  /** `"".join([c if c.isalnum() else "_" for c in keyword])[:80]`. */
  function SafeKeyword(keyword: string, isAlnum: char -> bool): (r: string)
    ensures |r| == Min(MaxKeywordChars, |keyword|)
    ensures forall i :: 0 <= i < |r| ==> r[i] == SafeChar(keyword[i], isAlnum)
  {
    var full := seq(|keyword|, i requires 0 <= i < |keyword| => SafeChar(keyword[i], isAlnum));
    if |full| <= MaxKeywordChars then full else full[..MaxKeywordChars]
  }

  /** The sanitised keyword holds only alphanumeric characters and `_`, each
      kept character in the position it had in the keyword. */
  lemma SafeKeywordAlphabet(keyword: string, isAlnum: char -> bool)
    ensures var r := SafeKeyword(keyword, isAlnum);
      forall i :: 0 <= i < |r| ==> (isAlnum(r[i]) && r[i] == keyword[i]) || r[i] == '_'
  {
  }

  /** Sanitising twice changes nothing. */
  lemma SafeKeywordIdempotent(keyword: string, isAlnum: char -> bool)
    ensures SafeKeyword(SafeKeyword(keyword, isAlnum), isAlnum) == SafeKeyword(keyword, isAlnum)
  {
    var r := SafeKeyword(keyword, isAlnum);
    var rr := SafeKeyword(r, isAlnum);
    assert |rr| == |r|;
    forall i | 0 <= i < |r| ensures rr[i] == r[i] {
      assert r[i] == SafeChar(keyword[i], isAlnum);
    }
  }

  /** `f"{safe_kw}_{ts}.html"`. */
  function DebugFileName(keyword: string, stamp: string, isAlnum: char -> bool): (r: string)
    ensures var safe := SafeKeyword(keyword, isAlnum);
      && |r| == |safe| + |stamp| + 6
      && r[..|safe|] == safe && r[|safe|] == '_'
      && r[|safe| + 1..|safe| + 1 + |stamp|] == stamp
      && r[|r| - 5..] == ".html"
  {
    SafeKeyword(keyword, isAlnum) + "_" + stamp + ".html"
  }

  /** Timestamps keep file names apart: for one keyword, two timestamps give
      the same file name only if they are equal. */
  lemma DebugFileNameStampInjective(keyword: string, s1: string, s2: string, isAlnum: char -> bool)
    requires DebugFileName(keyword, s1, isAlnum) == DebugFileName(keyword, s2, isAlnum)
    ensures s1 == s2
  {
    var p := SafeKeyword(keyword, isAlnum) + "_";
    var n1 := DebugFileName(keyword, s1, isAlnum);
    assert n1 == p + s1 + ".html";
    assert n1 == p + s2 + ".html";
    assert |s1| == |s2|;
    assert s1 == n1[|p|..|p| + |s1|];
    assert s2 == n1[|p|..|p| + |s2|];
  }

  /** `os.path.join(directory, name)` on a POSIX system. */
  function JoinPath(directory: string, name: string): string {
    if HasPrefix(name, "/") then name
    else if directory == [] || directory[|directory| - 1] == '/' then directory + name
    else directory + "/" + name
  }

  /** The path `save_debug_html(keyword, html)` returns. */
  function DebugPath(directory: string, keyword: string, stamp: string, isAlnum: char -> bool): (r: string)
    ensures var name := DebugFileName(keyword, stamp, isAlnum);
      |name| <= |r| && r[|r| - |name|..] == name
  {
    JoinPath(directory, DebugFileName(keyword, stamp, isAlnum))
  }
}
