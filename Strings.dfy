/**
 * The string helpers: the constexpr `strlen`/`strcmp` on NUL-terminated
 * character arrays, and the run-time suffix test.  A C string is a
 * `seq<char>` that holds a NUL at or after the position being read;
 * characters compare by code point.
 */
module Strings {

  const Nul: char := '\0'

  /** Some NUL lies at or after `pos`: reading forward from `pos` stays inside `s`. */
  predicate TerminatedFrom(s: seq<char>, pos: nat)
  {
    pos <= |s| && Nul in s[pos..]
  }

  lemma TerminatedFurther(s: seq<char>, pos: nat)
    requires TerminatedFrom(s, pos) && s[pos] != Nul
    ensures TerminatedFrom(s, pos + 1)
  {
    assert s[pos..] == [s[pos]] + s[pos + 1..];
  }

  /** `stringCxStrlen(str, pos)`: the index of the first NUL at or after `pos`. */
  function CxStrlen(s: seq<char>, pos: nat): (r: nat)
    requires TerminatedFrom(s, pos)
    ensures pos <= r < |s| && s[r] == Nul
    ensures forall k :: pos <= k < r ==> s[k] != Nul
    decreases |s| - pos
  {
    assert s[pos..] != [];
    if s[pos] == Nul then pos
    else
      TerminatedFurther(s, pos);
      CxStrlen(s, pos + 1)
  }

  /** The characters from `pos` up to, excluding, the terminator. */
  function Content(s: seq<char>, pos: nat): seq<char>
    requires TerminatedFrom(s, pos)
  {
    s[pos..CxStrlen(s, pos)]
  }

  /** `stringCxStrcmp(lhs, rhs, pos)`: -1, 0 or 1 as `strcmp`, comparing from `pos`. */
  function CxStrcmp(lhs: seq<char>, rhs: seq<char>, pos: nat): (r: int)
    requires TerminatedFrom(lhs, pos) && TerminatedFrom(rhs, pos)
    ensures -1 <= r <= 1
    ensures r == 0 <==> Content(lhs, pos) == Content(rhs, pos)
    decreases |lhs| - pos
  {
    assert lhs[pos..] != [] && rhs[pos..] != [];
    if lhs[pos] < rhs[pos] then
      assert Content(rhs, pos)[0] == rhs[pos];
      -1
    else if lhs[pos] > rhs[pos] then
      assert Content(lhs, pos)[0] == lhs[pos];
      1
    else if lhs[pos] == Nul then 0
    else
      TerminatedFurther(lhs, pos);
      TerminatedFurther(rhs, pos);
      assert Content(lhs, pos) == [lhs[pos]] + Content(lhs, pos + 1);
      assert Content(rhs, pos) == [rhs[pos]] + Content(rhs, pos + 1);
      CxStrcmp(lhs, rhs, pos + 1)
  }

  /**
   * The first position where the two strings differ decides the result:
   * -1 if `lhs` has the smaller character there, 1 otherwise.
   */
  lemma {:induction false} CxStrcmpDecidedByFirstDifference(lhs: seq<char>, rhs: seq<char>, pos: nat, k: nat)
    requires TerminatedFrom(lhs, pos) && TerminatedFrom(rhs, pos)
    requires pos <= k < |lhs| && k < |rhs| && lhs[k] != rhs[k]
    requires forall j :: pos <= j < k ==> lhs[j] == rhs[j] && lhs[j] != Nul
    ensures CxStrcmp(lhs, rhs, pos) == if lhs[k] < rhs[k] then -1 else 1
    decreases k - pos
  {
    if pos < k {
      TerminatedFurther(lhs, pos);
      TerminatedFurther(rhs, pos);
      CxStrcmpDecidedByFirstDifference(lhs, rhs, pos + 1, k);
    }
  }

  /** Swapping the operands negates the result. */
  lemma {:induction false} CxStrcmpAntisymmetric(lhs: seq<char>, rhs: seq<char>, pos: nat)
    requires TerminatedFrom(lhs, pos) && TerminatedFrom(rhs, pos)
    ensures CxStrcmp(lhs, rhs, pos) == -CxStrcmp(rhs, lhs, pos)
    decreases |lhs| - pos
  {
    if lhs[pos] == rhs[pos] && lhs[pos] != Nul {
      TerminatedFurther(lhs, pos);
      TerminatedFurther(rhs, pos);
      CxStrcmpAntisymmetric(lhs, rhs, pos + 1);
    }
  }

  /** The compile-time checks that accompany `stringCxStrcmp`. */
  lemma CxStrcmpCompileTimeChecks()
    ensures CxStrcmp("\0", "\0", 0) == 0
    ensures CxStrcmp("a\0", "\0", 0) == 1
    ensures CxStrcmp("\0", "a\0", 0) == -1
    ensures CxStrcmp("echoe\0", "echo\0", 0) == 1
    ensures CxStrcmp("echo\0", "echo\0", 0) == 0
    ensures CxStrcmp("echo\0", "echoe\0", 0) == -1
    ensures CxStrcmp("echoa\0", "echoz\0", 0) == -1
    ensures CxStrcmp("echoz\0", "echoa\0", 0) == 1
  {
    assert TerminatedFrom("\0", 0) by { assert "\0"[0] == Nul; }
    assert TerminatedFrom("a\0", 0) by { assert "a\0"[1] == Nul; }
    assert TerminatedFrom("echo\0", 0) by { assert "echo\0"[4] == Nul; }
    assert TerminatedFrom("echoe\0", 0) by { assert "echoe\0"[5] == Nul; }
    assert TerminatedFrom("echoa\0", 0) by { assert "echoa\0"[5] == Nul; }
    assert TerminatedFrom("echoz\0", 0) by { assert "echoz\0"[5] == Nul; }
    CxStrcmpDecidedByFirstDifference("a\0", "\0", 0, 0);
    CxStrcmpDecidedByFirstDifference("\0", "a\0", 0, 0);
    CxStrcmpDecidedByFirstDifference("echoe\0", "echo\0", 0, 4);
    CxStrcmpDecidedByFirstDifference("echo\0", "echoe\0", 0, 4);
    CxStrcmpDecidedByFirstDifference("echoa\0", "echoz\0", 0, 4);
    CxStrcmpDecidedByFirstDifference("echoz\0", "echoa\0", 0, 4);
    assert CxStrlen("echo\0", 0) == 4;
  }

  /** `needle` occurs in `hay` starting at `j`. */
  predicate OccursAt(hay: seq<char>, needle: seq<char>, j: int)
  {
    0 <= j && j + |needle| <= |hay| && hay[j..j + |needle|] == needle
  }

  /**
   * `std::find_end(hay, needle)`: the start of the last occurrence of
   * `needle` in `hay`, or `|hay|` when there is none or `needle` is empty.
   */
  function FindEnd(hay: seq<char>, needle: seq<char>): (r: nat)
    ensures r == |hay| || (r < |hay| && OccursAt(hay, needle, r))
    ensures |needle| == 0 ==> r == |hay|
    ensures r < |hay| ==> forall j :: r < j && OccursAt(hay, needle, j) ==> false
    ensures r == |hay| && |needle| > 0 ==> forall j :: !OccursAt(hay, needle, j)
  {
    if |needle| == 0 || |needle| > |hay| then |hay|
    else FindEndFrom(hay, needle, |hay| - |needle|)
  }

  function FindEndFrom(hay: seq<char>, needle: seq<char>, k: int): (r: nat)
    requires 0 < |needle| <= |hay| && k <= |hay| - |needle|
    ensures r == |hay| || (r <= k && OccursAt(hay, needle, r))
    ensures r < |hay| ==> forall j :: r < j <= k ==> !OccursAt(hay, needle, j)
    ensures r == |hay| ==> forall j :: j <= k ==> !OccursAt(hay, needle, j)
    decreases k + 1
  {
    if k < 0 then |hay|
    else if hay[k..k + |needle|] == needle then k
    else FindEndFrom(hay, needle, k - 1)
  }

  /**
   * `stringIsEnswith` (the header declares it as `stringIsEndswith`):
   * true iff both strings are non-empty, the suffix is not longer, and the
   * string ends with the suffix.
   */
  function StringIsEnswith(str: seq<char>, suffix: seq<char>): (r: bool)
    requires TerminatedFrom(str, 0) && TerminatedFrom(suffix, 0)
    ensures r <==> (var s, x := Content(str, 0), Content(suffix, 0);
                    0 < |x| <= |s| && s[|s| - |x|..] == x)
  {
    var strLen := CxStrlen(str, 0);
    var suffixLen := CxStrlen(suffix, 0);
    if strLen > 0 && suffixLen > 0 && strLen >= suffixLen then
      var s, x := str[..strLen], suffix[..suffixLen];
      assert s[strLen - suffixLen..strLen] == s[|s| - |x|..];
      FindEnd(s, x) == strLen - suffixLen
    else
      false
  }

  /** A non-empty string ends with itself. */
  lemma EqualNonEmptyStringsEndWithEachOther(s: seq<char>)
    requires TerminatedFrom(s, 0) && s[0] != Nul
    ensures StringIsEnswith(s, s)
  {
  }

  /** An empty suffix, an empty string, or a suffix longer than the string all give false. */
  lemma StringIsEnswithRejects(str: seq<char>, suffix: seq<char>)
    requires TerminatedFrom(str, 0) && TerminatedFrom(suffix, 0)
    requires str[0] == Nul || suffix[0] == Nul || CxStrlen(suffix, 0) > CxStrlen(str, 0)
    ensures !StringIsEnswith(str, suffix)
  {
  }
}
