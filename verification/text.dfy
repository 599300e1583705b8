/** String primitives the source takes from JavaScript and Node:
    `startsWith`, `includes`, `indexOf`/`lastIndexOf` and `path.extname`, and `split` at the first separator. */
module Text {
  import opened Common

  /** `s.startsWith(prefix)`. */
  predicate StartsWith(s: string, prefix: string) {
    |prefix| <= |s| && s[..|prefix|] == prefix
  }

  /** `needle` occurs in `hay` starting at position `i`. */
  ghost predicate OccursAt(needle: string, hay: string, i: int) {
    0 <= i && i + |needle| <= |hay| && hay[i..i + |needle|] == needle
  }

  /** Reference definition of "is a substring of". */
  ghost predicate IsSubstring(needle: string, hay: string) {
    exists i :: OccursAt(needle, hay, i)
  }

  lemma OccursAtShift(needle: string, hay: string, i: int)
    requires |hay| > 0 && i >= 0
    ensures OccursAt(needle, hay[1..], i) <==> OccursAt(needle, hay, i + 1)
  {
    if 0 <= i && i + |needle| <= |hay| - 1 {
      assert hay[1..][i..i + |needle|] == hay[i + 1..i + 1 + |needle|];
    }
  }

  /** `hay.includes(needle)`, scanning left to right. */
  function Includes(hay: string, needle: string): (r: bool)
    ensures r <==> IsSubstring(needle, hay)
    decreases |hay|
  {
    if StartsWith(hay, needle) then
      assert OccursAt(needle, hay, 0);
      true
    else if |hay| == 0 then
      false
    else
      var rest := Includes(hay[1..], needle);
      assert rest ==> IsSubstring(needle, hay) by {
        if rest {
          var i :| OccursAt(needle, hay[1..], i);
          assert i >= 0;
          OccursAtShift(needle, hay, i);
        }
      }
      assert IsSubstring(needle, hay) ==> rest by {
        if IsSubstring(needle, hay) {
          var i :| OccursAt(needle, hay, i);
          assert i != 0;
          OccursAtShift(needle, hay, i - 1);
        }
      }
      rest
  }

  /** `s.lastIndexOf(c)`: the last position holding `c`, or -1. */
  function LastIndex(s: string, c: char): (r: int)
    ensures -1 <= r < |s|
    ensures r >= 0 ==> s[r] == c
    ensures forall j :: r < j < |s| ==> s[j] != c
    decreases |s|
  {
    if |s| == 0 then -1
    else if s[|s| - 1] == c then |s| - 1
    else LastIndex(s[..|s| - 1], c)
  }

  /** `s.indexOf(c)`: the first position holding `c`, or -1. */
  function FirstIndex(s: string, c: char): (r: int)
    ensures -1 <= r < |s|
    ensures r >= 0 ==> s[r] == c
    ensures forall j :: 0 <= j < |s| && (r < 0 || j < r) ==> s[j] != c
    decreases |s|
  {
    if |s| == 0 then -1
    else if s[0] == c then 0
    else
      var k := FirstIndex(s[1..], c);
      if k < 0 then -1 else k + 1
  }

  /** The path with every trailing `/` removed. */
  function StripTrailingSlashes(p: string): (r: string)
    ensures StartsWith(p, r)
    ensures |r| == 0 || r[|r| - 1] != '/'
    decreases |p|
  {
    if |p| > 0 && p[|p| - 1] == '/' then StripTrailingSlashes(p[..|p| - 1]) else p
  }

  /** The last path component (after trailing slashes are dropped). */
  function BaseName(p: string): (r: string)
    ensures '/' !in r
  {
    var t := StripTrailingSlashes(p);
    var k := LastIndex(t, '/');
    t[k + 1..]
  }

  /** Node's POSIX `path.extname`: the last component's suffix from its last
      dot, unless that dot begins the component (a dot-file) or the
      component is `..`; the empty string when there is no such dot. */
  function Extname(p: string): (r: string)
    ensures r == "" || (r[0] == '.' && '.' !in r[1..] && '/' !in r)
    ensures r != "" ==> exists k :: 0 < k < |BaseName(p)| && BaseName(p)[k..] == r
    ensures r == "" <==> BaseName(p) == ".." || LastIndex(BaseName(p), '.') <= 0
  {
    var base := BaseName(p);
    var dot := LastIndex(base, '.');
    if dot <= 0 || base == ".." then ""
    else
      var r := base[dot..];
      assert forall j :: 0 <= j < |r| - 1 ==> r[1..][j] == base[dot + 1 + j];
      r
  }

  /** `s.split(c)` limited to the first separator: the text before the
      first `c` and the text after it, or `None` when `c` does not occur. */
  function SplitOnce(s: string, c: char): (r: Option<(string, string)>)
    ensures r.None? <==> c !in s
    ensures r.Some? ==> s == r.value.0 + [c] + r.value.1 && c !in r.value.0
  {
    var k := FirstIndex(s, c);
    if k < 0 then None
    else
      assert s == s[..k] + [c] + s[k + 1..];
      assert forall j :: 0 <= j < k ==> s[..k][j] == s[j];
      Some((s[..k], s[k + 1..]))
  }

  /** Splitting `a + [c] + b` recovers `a` and `b` when `a` holds no `c`. */
  lemma SplitOnceOf(a: string, c: char, b: string)
    requires c !in a
    ensures SplitOnce(a + [c] + b, c) == Some((a, b))
  {
    var s := a + [c] + b;
    assert s[|a|] == c;
    assert forall j :: 0 <= j < |a| ==> s[j] == a[j];
    assert FirstIndex(s, c) == |a|;
    assert s[..|a|] == a && s[|a| + 1..] == b;
  }
}
