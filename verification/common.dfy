/** Small shared vocabulary: optional values, results, `find` and an order-preserving filter. */
module Common {

  /** A value that may be absent (JavaScript's `null` / `undefined`). */
  datatype Option<T> = None | Some(value: T)

  /** The outcome of a validation step: a value or the list of problems found. */
  datatype Result<T, E> = Ok(value: T) | Err(error: E)

  /** `Array.prototype.filter`: keeps, in order, the elements satisfying `p`. */
  function Filter<T(!new)>(s: seq<T>, p: T -> bool): (r: seq<T>)
    ensures |r| <= |s|
    ensures forall x :: x in r <==> x in s && p(x)
    decreases |s|
  {
    if s == [] then []
    else if p(s[0]) then [s[0]] + Filter(s[1..], p)
    else Filter(s[1..], p)
  }

  /** `idx` lists, strictly increasing, positions of `s` that spell out `r`. */
  ghost predicate Embeds<T>(idx: seq<int>, r: seq<T>, s: seq<T>) {
    && |idx| == |r|
    && (forall i :: 0 <= i < |idx| ==> 0 <= idx[i] < |s| && s[idx[i]] == r[i])
    && (forall i, j :: 0 <= i < j < |idx| ==> idx[i] < idx[j])
  }

  /** `r` is `s` with some elements left out and the rest in their order. */
  ghost predicate IsSubsequence<T>(r: seq<T>, s: seq<T>) {
    exists idx: seq<int> :: Embeds(idx, r, s)
  }

  /** Every position moved one place to the right. */
  function Shift(idx: seq<int>): (r: seq<int>)
    ensures |r| == |idx| && forall i :: 0 <= i < |idx| ==> r[i] == idx[i] + 1
  {
    seq(|idx|, i requires 0 <= i < |idx| => idx[i] + 1)
  }

  /** An embedding survives putting one more element in front of `s`. */
  lemma EmbedsBehind<T>(x: T, idx: seq<int>, r: seq<T>, s: seq<T>)
    requires Embeds(idx, r, s)
    ensures Embeds(Shift(idx), r, [x] + s)
  {
    var t := [x] + s;
    forall i | 0 <= i < |idx| ensures t[Shift(idx)[i]] == r[i] {
      assert t[idx[i] + 1] == s[idx[i]];
    }
  }

  /** An embedding extends by matching a common first element. */
  lemma EmbedsCons<T>(x: T, idx: seq<int>, r: seq<T>, s: seq<T>)
    requires Embeds(idx, r, s)
    ensures Embeds([0] + Shift(idx), [x] + r, [x] + s)
  {
    EmbedsBehind(x, idx, r, s);
    var sh := Shift(idx);
    var j := [0] + sh;
    var t := [x] + s;
    forall i | 0 <= i < |j| ensures 0 <= j[i] < |t| && t[j[i]] == ([x] + r)[i] {
      if i > 0 {
        assert j[i] == sh[i - 1] && ([x] + r)[i] == r[i - 1];
      }
    }
    forall i, k | 0 <= i < k < |j| ensures j[i] < j[k] {
      assert j[k] == sh[k - 1] >= 1;
      if i > 0 { assert j[i] == sh[i - 1]; }
    }
  }

  /** The positions `Filter` keeps: a witness that it preserves order. */
  lemma {:induction false} FilterEmbeds<T(!new)>(s: seq<T>, p: T -> bool) returns (idx: seq<int>)
    ensures Embeds(idx, Filter(s, p), s)
    decreases |s|
  {
    if s == [] {
      idx := [];
    } else {
      var rest := FilterEmbeds(s[1..], p);
      assert s == [s[0]] + s[1..];
      if p(s[0]) {
        EmbedsCons(s[0], rest, Filter(s[1..], p), s[1..]);
        idx := [0] + Shift(rest);
      } else {
        EmbedsBehind(s[0], rest, Filter(s[1..], p), s[1..]);
        idx := Shift(rest);
      }
    }
  }

  /** `Array.prototype.filter` keeps the survivors in their original order. */
  lemma FilterSubsequence<T(!new)>(s: seq<T>, p: T -> bool)
    ensures IsSubsequence(Filter(s, p), s)
  {
    var idx := FilterEmbeds(s, p);
  }

  /** `Array.prototype.find`: the first element satisfying `p`, if any. */
  function Find<T>(s: seq<T>, p: T -> bool): (r: Option<T>)
    ensures r.Some? ==> r.value in s && p(r.value)
    ensures r.Some? ==> exists k :: 0 <= k < |s| && s[k] == r.value && forall j :: 0 <= j < k ==> !p(s[j])
    ensures r.None? <==> forall x :: x in s ==> !p(x)
    decreases |s|
  {
    if s == [] then None
    else if p(s[0]) then Some(s[0])
    else
      assert s == [s[0]] + s[1..];
      var r := Find(s[1..], p);
      assert r.Some? ==> exists k :: 0 <= k < |s| && s[k] == r.value && forall j :: 0 <= j < k ==> !p(s[j]) by {
        if r.Some? {
          var k :| 0 <= k < |s[1..]| && s[1..][k] == r.value && forall j :: 0 <= j < k ==> !p(s[1..][j]);
          assert s[k + 1] == r.value;
          assert forall j :: 0 <= j < k + 1 ==> !p(s[j]) by {
            forall j | 0 <= j < k + 1 ensures !p(s[j]) {
              if j > 0 { assert s[j] == s[1..][j - 1]; }
            }
          }
        }
      }
      r
  }

  /** No element occurs twice. */
  predicate Distinct<T(==)>(s: seq<T>) {
    forall i, j :: 0 <= i < j < |s| ==> s[i] != s[j]
  }

  /** Filtering never introduces a duplicate. */
  lemma {:induction false} FilterDistinct<T(!new)>(s: seq<T>, p: T -> bool)
    requires Distinct(s)
    ensures Distinct(Filter(s, p))
  {
    if s != [] {
      assert Distinct(s[1..]);
      FilterDistinct(s[1..], p);
      assert s[0] !in s[1..];
    }
  }

  /** Filtering with a predicate that holds everywhere is the identity. */
  lemma {:induction false} FilterAll<T(!new)>(s: seq<T>, p: T -> bool)
    requires forall x :: x in s ==> p(x)
    ensures Filter(s, p) == s
  {
    if s != [] {
      FilterAll(s[1..], p);
    }
  }

  /** Filtering distributes over concatenation. */
  lemma {:induction false} FilterAppend<T(!new)>(a: seq<T>, b: seq<T>, p: T -> bool)
    ensures Filter(a + b, p) == Filter(a, p) + Filter(b, p)
  {
    if a != [] {
      assert (a + b)[1..] == a[1..] + b;
      FilterAppend(a[1..], b, p);
    } else {
      assert a + b == b;
    }
  }

  lemma FilterRejects<T(!new)>(x: T, p: T -> bool)
    requires !p(x)
    ensures Filter([x], p) == []
  {
    assert [x][1..] == [];
  }

  /** Filtering out exactly one element of a sequence. */
  lemma FilterDropsOne<T(!new)>(a: seq<T>, x: T, b: seq<T>, p: T -> bool)
    requires forall y :: y in a ==> p(y)
    requires forall y :: y in b ==> p(y)
    requires !p(x)
    ensures Filter(a + [x] + b, p) == a + b
  {
    FilterAll(a, p);
    FilterAll(b, p);
    FilterRejects(x, p);
    FilterAppend(a, [x], p);
    assert Filter(a + [x], p) == a;
    FilterAppend(a + [x], b, p);
  }
}
