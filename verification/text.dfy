/**
 * The handful of Python string operations the speaker functions use:
 * `str.lower()`, the substring test `needle in hay`, `str.split()` with no
 * separator, `str.strip()`, `s.split(":")[0]`, `str.isspace()` and
 * `sep.join(parts)`.
 */
module Text {

  /** `c.isspace()` for the characters up to U+00FF. */
  predicate IsSpace(c: char) {
    c == ' ' || ('\t' <= c <= '\r') || ('\U{1C}' <= c <= '\U{1F}')
    || c == '\U{85}' || c == '\U{A0}'
  }

  predicate NoSpace(s: string) {
    forall i :: 0 <= i < |s| ==> !IsSpace(s[i])
  }

  /** `s.isspace()`: non-empty and made of whitespace only. */
  predicate IsWhitespace(s: string) {
    |s| > 0 && forall i :: 0 <= i < |s| ==> IsSpace(s[i])
  }

  /** `not s or s.isspace()`: a text with nothing but whitespace in it, if anything. */
  function Blank(s: string): (r: bool)
    ensures r <==> forall i :: 0 <= i < |s| ==> IsSpace(s[i])
  {
    s == [] || IsWhitespace(s)
  }

  /** `str.lower()` on one character (ASCII letters). */
  function LowerChar(c: char): char {
    if 'A' <= c <= 'Z' then (c as int + 32) as char else c
  }

  function Lower(s: string): string {
    seq(|s|, i requires 0 <= i < |s| => LowerChar(s[i]))
  }

  /**
   * `str.lower()` keeps the length, turns each upper-case ASCII letter into
   * its lower-case form and leaves every other character alone, so no
   * upper-case ASCII letter is left and lower-casing again changes nothing.
   */
  lemma LowerMaps(s: string)
    ensures var r := Lower(s);
            |r| == |s|
            && (forall i :: 0 <= i < |s| && 'A' <= s[i] <= 'Z' ==> r[i] as int == s[i] as int + 32)
            && (forall i :: 0 <= i < |s| && !('A' <= s[i] <= 'Z') ==> r[i] == s[i])
            && (forall i :: 0 <= i < |r| ==> !('A' <= r[i] <= 'Z'))
            && Lower(r) == r
  {
    var r := Lower(s);
    assert forall i :: 0 <= i < |r| ==> Lower(r)[i] == r[i];
  }

  /** `needle` sits in `hay` starting at index `i`. */
  ghost predicate OccursAt(hay: string, needle: string, i: int) {
    0 <= i && i + |needle| <= |hay| && hay[i..i + |needle|] == needle
  }

  lemma OccursAtShift(hay: string, needle: string, i: int)
    requires |hay| > 0 && 0 <= i
    ensures OccursAt(hay[1..], needle, i) <==> OccursAt(hay, needle, i + 1)
  {
    if 0 <= i && i + |needle| <= |hay| - 1 {
      assert hay[1..][i..i + |needle|] == hay[i + 1..i + 1 + |needle|];
    }
  }

  /** Python's `needle in hay`. */
  function Contains(hay: string, needle: string): (r: bool)
    ensures r <==> exists i :: OccursAt(hay, needle, i)
    decreases |hay|
  {
    if needle <= hay then
      assert OccursAt(hay, needle, 0);
      true
    else if |hay| <= |needle| then
      assert forall i :: OccursAt(hay, needle, i) ==> i == 0 && hay[..|needle|] == needle;
      false
    else
      var r := Contains(hay[1..], needle);
      assert r ==> exists i :: OccursAt(hay, needle, i) by {
        if r {
          var i :| OccursAt(hay[1..], needle, i);
          OccursAtShift(hay, needle, i);
        }
      }
      assert (exists i :: OccursAt(hay, needle, i)) ==> r by {
        if exists i :: OccursAt(hay, needle, i) {
          var i :| OccursAt(hay, needle, i);
          assert i != 0;
          OccursAtShift(hay, needle, i - 1);
        }
      }
      r
  }

  /** `any(needle in hay for needle in needles)`. */
  function ContainsAny(hay: string, needles: seq<string>): (r: bool)
    ensures r <==> exists w :: w in needles && Contains(hay, w)
  {
    if needles == [] then false
    else
      var rest := ContainsAny(hay, needles[1..]);
      assert forall w :: w in needles <==> w == needles[0] || w in needles[1..];
      Contains(hay, needles[0]) || rest
  }

  /** `any(needle in hay for hay in hays)`. */
  function AnyContains(hays: seq<string>, needle: string): (r: bool)
    ensures r <==> exists h :: h in hays && Contains(h, needle)
  {
    if hays == [] then false
    else
      var rest := AnyContains(hays[1..], needle);
      assert forall h :: h in hays <==> h == hays[0] || h in hays[1..];
      Contains(hays[0], needle) || rest
  }

  /** `all(needle in hay for hay in hays)`. */
  function AllContain(hays: seq<string>, needle: string): (r: bool)
    ensures r <==> forall h :: h in hays ==> Contains(h, needle)
  {
    if hays == [] then true
    else
      var rest := AllContain(hays[1..], needle);
      assert forall h :: h in hays <==> h == hays[0] || h in hays[1..];
      Contains(hays[0], needle) && rest
  }

  /** The characters of `s` that are not whitespace, in order. */
  function NonSpace(s: string): string {
    if s == [] then []
    else (if IsSpace(s[0]) then [] else [s[0]]) + NonSpace(s[1..])
  }

  function Concat(ws: seq<string>): string {
    if ws == [] then [] else ws[0] + Concat(ws[1..])
  }

  /** `s.split()`: the maximal runs of non-whitespace characters. */
  function Words(s: string): (ws: seq<string>)
    ensures forall w :: w in ws ==> w != [] && NoSpace(w)
    ensures Concat(ws) == NonSpace(s)
  {
    WordsFrom(s, [])
  }

  /** Splits `s`, given that `word` is the run read just before it. */
  function WordsFrom(s: string, word: string): (ws: seq<string>)
    requires NoSpace(word)
    ensures forall w :: w in ws ==> w != [] && NoSpace(w)
    ensures Concat(ws) == word + NonSpace(s)
    decreases |s|
  {
    if s == [] then
      if word == [] then [] else assert Concat([word]) == word + Concat([]); [word]
    else if IsSpace(s[0]) then
      var rest := WordsFrom(s[1..], []);
      if word == [] then rest
      else
        assert ([word] + rest)[1..] == rest;
        [word] + rest
    else
      assert word + [s[0]] + NonSpace(s[1..]) == word + NonSpace(s);
      WordsFrom(s[1..], word + [s[0]])
  }

  /** `r` is `s` less a run of whitespace at its front. */
  ghost predicate TrimmedFront(s: string, r: string) {
    |r| <= |s| && r == s[|s| - |r|..] && forall k :: 0 <= k < |s| - |r| ==> IsSpace(s[k])
  }

  /** `r` is `s` less a run of whitespace at its back. */
  ghost predicate TrimmedBack(s: string, r: string) {
    |r| <= |s| && r == s[..|r|] && forall k :: |r| <= k < |s| ==> IsSpace(s[k])
  }

  /** `s.lstrip()`. */
  function TrimStart(s: string): (r: string)
    ensures TrimmedFront(s, r)
    ensures r == [] || !IsSpace(r[0])
  {
    if s != [] && IsSpace(s[0]) then
      var r := TrimStart(s[1..]);
      assert forall k :: 1 <= k < |s| - |r| ==> s[k] == s[1..][k - 1];
      r
    else s
  }

  /** `s.rstrip()`. */
  function TrimEnd(s: string): (r: string)
    ensures TrimmedBack(s, r)
    ensures r == [] || !IsSpace(r[|r| - 1])
  {
    if s != [] && IsSpace(s[|s| - 1]) then
      var r := TrimEnd(s[..|s| - 1]);
      assert forall k :: |r| <= k < |s| - 1 ==> s[k] == s[..|s| - 1][k];
      r
    else s
  }

  /** `r` is the slice of `s` at `i`, with only whitespace on either side of it. */
  ghost predicate StrippedAt(s: string, r: string, i: int) {
    0 <= i <= |s| - |r| && r == s[i..i + |r|]
    && (forall k :: 0 <= k < i ==> IsSpace(s[k]))
    && (forall k :: i + |r| <= k < |s| ==> IsSpace(s[k]))
  }

  /** `s.strip()`: `s` less its leading and trailing whitespace. */
  function Strip(s: string): (r: string)
    ensures exists i :: StrippedAt(s, r, i)
    ensures r == [] || (!IsSpace(r[0]) && !IsSpace(r[|r| - 1]))
  {
    var t := TrimStart(s);
    var r := TrimEnd(t);
    StrippedBetween(s, t, r);
    r
  }

  /** Whitespace stripped from the front of `s`, giving `t`, then from the back of `t`, giving `r`. */
  lemma StrippedBetween(s: string, t: string, r: string)
    requires TrimmedFront(s, t) && TrimmedBack(t, r)
    requires (t == [] || !IsSpace(t[0])) && (r == [] || !IsSpace(r[|r| - 1]))
    ensures StrippedAt(s, r, |s| - |t|)
    ensures r == [] || (!IsSpace(r[0]) && !IsSpace(r[|r| - 1]))
  {
    assert r != [] ==> r[0] == t[0];
    var i := |s| - |t|;
    assert r == s[i..i + |r|];
    forall k | i + |r| <= k < |s|
      ensures IsSpace(s[k])
    {
      assert s[k] == t[k - i];
    }
  }

  lemma StripWithin(s: string)
    ensures Contains(s, Strip(s))
  {
    var r := Strip(s);
    var i :| StrippedAt(s, r, i);
    assert OccursAt(s, r, i);
  }

  /** What occurs in a prefix of `s` occurs in `s`. */
  lemma ContainsInPrefix(t: string, s: string, needle: string)
    requires t <= s && Contains(t, needle)
    ensures Contains(s, needle)
  {
    var i :| OccursAt(t, needle, i);
    assert s[i..i + |needle|] == t[i..i + |needle|];
    assert OccursAt(s, needle, i);
  }

  /** `s.split(":")[0]`: the text before the first colon, or all of `s`. */
  function BeforeColon(s: string): (r: string)
    ensures r <= s && ':' !in r
    ensures |r| < |s| ==> s[|r|] == ':'
  {
    if s == [] || s[0] == ':' then []
    else [s[0]] + BeforeColon(s[1..])
  }

  /** A name without a colon is exactly what precedes the colon that follows it. */
  lemma {:induction false} BeforeColonOfSpeaker(name: string, rest: string)
    requires ':' !in name
    ensures BeforeColon(name + ":" + rest) == name
  {
    var s := name + ":" + rest;
    assert s[|name|] == ':';
    assert forall k :: 0 <= k < |name| ==> s[k] == name[k] != ':';
    assert s[..|name|] == name;
  }

  lemma ContainsSelf(s: string)
    ensures Contains(s, s)
  {
    assert OccursAt(s, s, 0);
  }

  /** A prefix of `b` is a prefix of `b + c`. */
  lemma PrefixExtends(a: string, b: string, c: string)
    requires a <= b
    ensures a <= b + c
  {
  }

  /** `x` occurs in `a + x + b`. */
  lemma ContainsMiddle(a: string, x: string, b: string)
    ensures Contains(a + x + b, x)
  {
    assert (a + x + b)[|a|..|a| + |x|] == x;
    assert OccursAt(a + x + b, x, |a|);
  }

  /** What occurs in `a` occurs in `a + b`. */
  lemma ContainsExtends(a: string, b: string, needle: string)
    requires Contains(a, needle)
    ensures Contains(a + b, needle)
  {
    ContainsInPrefix(a, a + b, needle);
  }

  /** What occurs in `b` occurs in `a + b`. */
  lemma ContainsInSuffix(a: string, b: string, needle: string)
    requires Contains(b, needle)
    ensures Contains(a + b, needle)
  {
    var i :| OccursAt(b, needle, i);
    var s := a + b;
    assert s[|a| + i..|a| + i + |needle|] == b[i..i + |needle|];
    assert OccursAt(s, needle, |a| + i);
  }

  /** A needle with a character that `hay` lacks does not occur in `hay`. */
  lemma MissingCharacter(hay: string, needle: string, k: int)
    requires 0 <= k < |needle| && needle[k] !in hay
    ensures !Contains(hay, needle)
  {
  }

  /** Lower-casing cannot produce a letter whose two cases are both absent. */
  lemma LowerMissing(s: string, c: char)
    requires 'a' <= c <= 'z' && c !in s && (c as int - 32) as char !in s
    ensures c !in Lower(s)
  {
  }

  /** `sep.join(parts)`. */
  function Join(sep: string, parts: seq<string>): string {
    if parts == [] then []
    else if |parts| == 1 then parts[0]
    else parts[0] + sep + Join(sep, parts[1..])
  }

  /** `sep.join(parts)` starts with the first part, and every part occurs in it. */
  lemma {:induction false} JoinContainsParts(sep: string, parts: seq<string>)
    ensures parts != [] ==> parts[0] <= Join(sep, parts)
    ensures forall p :: p in parts ==> Contains(Join(sep, parts), p)
  {
    if |parts| == 1 {
      assert OccursAt(parts[0], parts[0], 0);
    } else if |parts| > 1 {
      var rest := Join(sep, parts[1..]);
      var j := Join(sep, parts);
      JoinContainsParts(sep, parts[1..]);
      assert j == parts[0] + sep + rest;
      forall p | p in parts
        ensures Contains(j, p)
      {
        if p == parts[0] {
          assert j[..|p|] == p;
          assert OccursAt(j, p, 0);
        } else {
          assert p in parts[1..];
          ContainsInSuffix(parts[0] + sep, rest, p);
        }
      }
    }
  }
}
