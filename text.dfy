/**
 * The JavaScript string built-ins the applications use: `trim` (to spot
 * blank list entries), `toLowerCase` and `includes` (for search).
 */
module Text {
  import Seqs

  /** ECMAScript WhiteSpace and LineTerminator code points, the set `trim` strips. */
  predicate IsWhitespace(c: char) {
    c in {'\t', '\n', '\U{000B}', '\U{000C}', '\r', ' ', '\U{00A0}', '\U{1680}',
          '\U{2000}', '\U{2001}', '\U{2002}', '\U{2003}', '\U{2004}', '\U{2005}',
          '\U{2006}', '\U{2007}', '\U{2008}', '\U{2009}', '\U{200A}',
          '\U{2028}', '\U{2029}', '\U{202F}', '\U{205F}', '\U{3000}', '\U{FEFF}'}
  }

  function TrimStart(s: string): (r: string)
    ensures r == [] <==> forall i :: 0 <= i < |s| ==> IsWhitespace(s[i])
    ensures r != [] ==> !IsWhitespace(r[0])
    ensures |r| <= |s| && r == s[|s| - |r|..]
    decreases |s|
  {
    if s != [] && IsWhitespace(s[0]) then TrimStart(s[1..]) else s
  }

  function TrimEnd(s: string): (r: string)
    ensures r == [] <==> forall i :: 0 <= i < |s| ==> IsWhitespace(s[i])
    ensures r != [] ==> !IsWhitespace(r[|r| - 1])
    ensures |r| <= |s| && r == s[..|r|]
    decreases |s|
  {
    if s != [] && IsWhitespace(s[|s| - 1]) then TrimEnd(s[..|s| - 1]) else s
  }

  /**
   * `s.trim()`: a piece of `s` that neither starts nor ends with
   * whitespace, empty exactly when `s` is all whitespace.
   */
  function Trim(s: string): (r: string)
    ensures r == [] <==> forall i :: 0 <= i < |s| ==> IsWhitespace(s[i])
    ensures r != [] ==> !IsWhitespace(r[0]) && !IsWhitespace(r[|r| - 1])
    ensures exists i :: OccursAt(s, r, i)
  {
    var t := TrimStart(s);
    var r := TrimEnd(t);
    assert s[|s| - |t|..|s| - |t| + |r|] == t[..|r|];
    assert OccursAt(s, r, |s| - |t|);
    r
  }

  /** `!s.trim()`: the entry is empty once trimmed. */
  predicate IsBlank(s: string) {
    Trim(s) == ""
  }

  function NotBlank(s: string): bool {
    !IsBlank(s)
  }

  /** `entries.filter(i => i.trim())`: the entries with something besides whitespace, in order. */
  function NonBlankEntries(entries: seq<string>): (r: seq<string>)
    ensures forall i :: 0 <= i < |r| ==> r[i] in entries && !IsBlank(r[i])
    ensures forall i :: 0 <= i < |entries| && !IsBlank(entries[i]) ==> entries[i] in r
  {
    Seqs.Filter(entries, NotBlank)
  }

  /** Dropping blank entries keeps the others in order, and changes nothing when none is blank. */
  lemma NonBlankEntriesKeepOrder(entries: seq<string>)
    ensures Seqs.IsSubseq(NonBlankEntries(entries), entries)
    ensures (forall i :: 0 <= i < |entries| ==> !IsBlank(entries[i])) ==> NonBlankEntries(entries) == entries
  {
    Seqs.FilterIsSubseq(entries, NotBlank);
    if forall i :: 0 <= i < |entries| ==> !IsBlank(entries[i]) {
      Seqs.FilterAll(entries, NotBlank);
    }
  }

  /** A string is blank exactly when every character of it is whitespace. */
  lemma BlankIffAllWhitespace(s: string)
    ensures IsBlank(s) <==> forall i :: 0 <= i < |s| ==> IsWhitespace(s[i])
  {
    var t := TrimStart(s);
    if t != [] {
      assert !IsWhitespace(t[0]);
    }
  }

  /**
   * `toLowerCase` on one character: ASCII, Latin-1 and Latin Extended-A
   * capitals (which include every Czech capital) map to their small
   * letters; every other character is left as it is.
   */
  function LowerChar(c: char): char {
    var n := c as int;
    if 0x41 <= n <= 0x5A || (0xC0 <= n <= 0xDE && n != 0xD7) then (n + 32) as char
    else if (0x100 <= n <= 0x137 && n != 0x130 && n % 2 == 0)
         || (0x139 <= n <= 0x148 && n % 2 == 1)
         || (0x14A <= n <= 0x177 && n % 2 == 0)
         || (0x179 <= n <= 0x17E && n % 2 == 1)
    then (n + 1) as char
    else if n == 0x178 then 0xFF as char
    else c
  }

  /** `s.toLowerCase()`: same length, ASCII capitals lowered, every other ASCII character kept. */
  function Lower(s: string): (r: string)
    ensures |r| == |s|
    ensures forall i :: 0 <= i < |s| && 'A' <= s[i] <= 'Z' ==> r[i] == (s[i] as int + 32) as char
    ensures forall i :: 0 <= i < |s| && s[i] as int < 128 && !('A' <= s[i] <= 'Z') ==> r[i] == s[i]
  {
    seq(|s|, i requires 0 <= i < |s| => LowerChar(s[i]))
  }

  /** Lowering twice is lowering once, so a lowered query stays as it is. */
  lemma LowerIdempotent(s: string)
    ensures Lower(Lower(s)) == Lower(s)
  {
    forall i | 0 <= i < |s| ensures LowerChar(LowerChar(s[i])) == LowerChar(s[i]) {
      LowerCharIdempotent(s[i]);
    }
  }

  lemma LowerCharIdempotent(c: char)
    ensures LowerChar(LowerChar(c)) == LowerChar(c)
  {
  }

  /** `hay.includes(needle)`, scanning from the left: the empty needle is always found, a longer one never, a suffix always. */
  function Includes(hay: string, needle: string): (b: bool)
    ensures needle == [] ==> b
    ensures b ==> |needle| <= |hay|
    ensures |needle| <= |hay| && hay[|hay| - |needle|..] == needle ==> b
    decreases |hay|
  {
    if |needle| > |hay| then false
    else hay[..|needle|] == needle || (hay != [] && Includes(hay[1..], needle))
  }

  /** `needle` sits in `hay` starting at position `i`. */
  ghost predicate OccursAt(hay: string, needle: string, i: int) {
    0 <= i <= |hay| - |needle| && hay[i..i + |needle|] == needle
  }

  /** `includes` holds exactly when `needle` occurs at some position of `hay`. */
  lemma {:induction false} IncludesIff(hay: string, needle: string)
    ensures Includes(hay, needle) <==> exists i :: OccursAt(hay, needle, i)
    decreases |hay|
  {
    if |needle| <= |hay| {
      if hay[..|needle|] == needle {
        assert OccursAt(hay, needle, 0);
      } else if hay != [] {
        IncludesIff(hay[1..], needle);
        if exists i :: OccursAt(hay, needle, i) {
          var i :| OccursAt(hay, needle, i);
          assert hay[1..][i - 1..i - 1 + |needle|] == hay[i..i + |needle|];
          assert OccursAt(hay[1..], needle, i - 1);
        }
        if Includes(hay[1..], needle) {
          var j :| OccursAt(hay[1..], needle, j);
          assert hay[j + 1..j + 1 + |needle|] == hay[1..][j..j + |needle|];
          assert OccursAt(hay, needle, j + 1);
        }
      }
    }
  }

  /** The empty string occurs in every string. */
  lemma IncludesEmpty(hay: string)
    ensures Includes(hay, "")
  {
    assert hay[..0] == "";
  }

  /**
   * The search predicate both applications use: the lowered query occurs in
   * the lowered title or in some lowered tag (`lq` is already lowered).
   */
  predicate MatchesQuery(title: string, tags: seq<string>, lq: string) {
    Includes(Lower(title), lq) || exists t :: t in tags && Includes(Lower(t), lq)
  }

  /** Every item matches the empty query. */
  lemma MatchesEmptyQueryAll()
    ensures forall title, tags :: MatchesQuery(title, tags, "")
  {
    forall title, tags ensures MatchesQuery(title, tags, "") {
      MatchesEmptyQuery(title, tags);
    }
  }

  lemma MatchesEmptyQuery(title: string, tags: seq<string>)
    ensures MatchesQuery(title, tags, "")
  {
    IncludesEmpty(Lower(title));
  }
}
