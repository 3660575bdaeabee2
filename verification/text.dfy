/** The JavaScript string operations the handlers rely on, over `seq<char>`:
    `trim`, `x?.trim() || null`, `startsWith`, `includes` and `toLowerCase`. */
module Text {
  import opened Wrappers

  /** JavaScript's WhiteSpace and LineTerminator code points: the characters `trim()`
      strips and the regular-expression class `\s` matches. */
  predicate IsSpace(c: char) {
    || c == '\t' || c == '\U{000B}' || c == '\U{000C}' || c == ' ' || c == '\U{00A0}' || c == '\U{FEFF}'
    || c == '\U{1680}' || ('\U{2000}' <= c <= '\U{200A}') || c == '\U{202F}' || c == '\U{205F}'
    || c == '\U{3000}' || IsLineTerminator(c)
  }

  /** The characters a regular-expression `.` refuses to match. */
  predicate IsLineTerminator(c: char) {
    c == '\n' || c == '\r' || c == '\U{2028}' || c == '\U{2029}'
  }

  /** Every character is whitespace (so `s.trim() === ""`). */
  predicate IsBlank(s: string) {
    forall i | 0 <= i < |s| :: IsSpace(s[i])
  }

  /** `s` has no whitespace at either end. */
  predicate IsTrimmed(s: string) {
    |s| > 0 ==> !IsSpace(s[0]) && !IsSpace(s[|s| - 1])
  }

  /** `r` is `s` with a blank prefix and a blank suffix cut away. */
  ghost predicate IsCoreOf(r: string, s: string) {
    exists k :: 0 <= k <= |s| - |r| && s[k..k + |r|] == r && IsBlank(s[..k]) && IsBlank(s[k + |r|..])
  }

  function TrimStart(s: string): (r: string)
    ensures |r| <= |s| && r == s[|s| - |r|..]
    ensures IsBlank(s[..|s| - |r|])
    ensures |r| > 0 ==> !IsSpace(r[0])
    decreases |s|
  {
    if |s| > 0 && IsSpace(s[0]) then TrimStart(s[1..]) else s
  }

  function TrimEnd(s: string): (r: string)
    ensures |r| <= |s| && r == s[..|r|]
    ensures IsBlank(s[|r|..])
    ensures |r| > 0 ==> !IsSpace(r[|r| - 1])
    decreases |s|
  {
    if |s| > 0 && IsSpace(s[|s| - 1]) then TrimEnd(s[..|s| - 1]) else s
  }

  /** Cutting a blank prefix and then a blank suffix off `s` leaves its core, which is empty
      exactly when all of `s` is blank. */
  lemma CoreOfCuts(s: string, a: string, r: string)
    requires |a| <= |s| && a == s[|s| - |a|..] && IsBlank(s[..|s| - |a|])
    requires |r| <= |a| && r == a[..|r|] && IsBlank(a[|r|..])
    requires IsTrimmed(r)
    ensures IsCoreOf(r, s)
    ensures r == [] <==> IsBlank(s)
  {
    var k := |s| - |a|;
    assert s[k..k + |r|] == r by {
      forall i | 0 <= i < |r|
        ensures s[k..k + |r|][i] == r[i]
      {
        assert r[i] == a[i] == s[k + i];
      }
    }
    assert s[k + |r|..] == a[|r|..];
    if r == [] {
      forall i | 0 <= i < |s|
        ensures IsSpace(s[i])
      {
        if i < k {
          assert s[i] == s[..k][i];
        } else {
          assert s[i] == a[i - k];
        }
      }
    } else {
      assert s[k] == r[0];
    }
  }

  /** JavaScript's `String.prototype.trim`. */
  function Trim(s: string): (r: string)
    ensures IsTrimmed(r)
    ensures IsCoreOf(r, s)
    ensures r == [] <==> IsBlank(s)
  {
    var a := TrimStart(s);
    var r := TrimEnd(a);
    CoreOfCuts(s, a, r);
    r
  }

  /** Trimming is idempotent. */
  lemma TrimIdempotent(s: string)
    ensures Trim(Trim(s)) == Trim(s)
  {
    var t := Trim(s);
    TrimmedIsFixed(t);
  }

  lemma TrimmedIsFixed(t: string)
    requires IsTrimmed(t)
    ensures Trim(t) == t
  {
    assert TrimStart(t) == t;
    assert TrimEnd(t) == t;
  }

  /** JavaScript's `x?.trim() || null`: an absent value stays absent, and a value
      that trims to the empty string becomes absent too. */
  function TrimOrNone(x: Option<string>): (r: Option<string>)
    ensures r.None? <==> (x.None? || IsBlank(x.value))
    ensures r.Some? ==> r.value == Trim(x.value) && r.value != []
  {
    match x
    case None => None
    case Some(s) => var t := Trim(s); if t == [] then None else Some(t)
  }

  /** JavaScript's `s.startsWith(p)`. */
  predicate StartsWith(s: string, p: string) {
    |p| <= |s| && s[..|p|] == p
  }

  /** `needle` occurs in `hay` starting at index `i`. */
  predicate OccursAt(hay: string, needle: string, i: int) {
    0 <= i && i + |needle| <= |hay| && hay[i..i + |needle|] == needle
  }

  /** JavaScript's `hay.includes(needle)`: the needle occurs at some position. */
  predicate Contains(hay: string, needle: string) {
    exists i | 0 <= i <= |hay| - |needle| :: OccursAt(hay, needle, i)
  }

  /** A needle whose character at offset `p` is missing from every position of `hay` it
      could be aligned with does not occur in `hay`. */
  lemma MismatchRulesOut(hay: string, needle: string, p: nat)
    requires p < |needle|
    requires forall j | p <= j <= |hay| - |needle| + p :: hay[j] != needle[p]
    ensures !Contains(hay, needle)
  {
    forall i | 0 <= i <= |hay| - |needle|
      ensures !OccursAt(hay, needle, i)
    {
      assert hay[i + p] != needle[p];
    }
  }

  /** A message that is itself the needle contains it. */
  lemma ContainsSelf(s: string)
    ensures Contains(s, s)
  {
    assert OccursAt(s, s, 0);
  }

  function ToLowerChar(c: char): char {
    if 'A' <= c <= 'Z' then (c as int + 32) as char else c
  }

  /** `toLowerCase` on the ASCII letters; every other character is kept. */
  function ToLower(s: string): (r: string)
    ensures |r| == |s|
    ensures forall i | 0 <= i < |s| :: r[i] == ToLowerChar(s[i])
    ensures forall i | 0 <= i < |s| :: !('A' <= r[i] <= 'Z')
  {
    seq(|s|, i requires 0 <= i < |s| => ToLowerChar(s[i]))
  }

  /** Lower-casing twice is lower-casing once. */
  lemma ToLowerIdempotent(s: string)
    ensures ToLower(ToLower(s)) == ToLower(s)
  {
  }

  /** Lower-casing keeps whitespace where it was, so it never undoes a trim. */
  lemma ToLowerKeepsTrimmed(s: string)
    requires IsTrimmed(s)
    ensures IsTrimmed(ToLower(s))
  {
  }
}
