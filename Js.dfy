/** The JavaScript built-ins that the note list, the note editor and the
    note layout are written with, modelled on sequences and strings.
    Each function follows the built-in's own semantics: `filter` keeps order,
    `every` and `some` stop at the first decisive element, `find` returns the
    first match or `undefined`, `includes` accepts the empty needle. */
module Js {

  /** A value that may be `undefined`. */
  datatype Option<T> = None | Some(value: T)

  /** What an array callback returns here: a boolean, or `undefined` when its
      block body ends without a `return`. */
  datatype JsValue = Undefined | Boolean(b: bool)

  /** JavaScript truthiness, restricted to the values above: `undefined` is falsy. */
  predicate Truthy(v: JsValue) {
    v.Boolean? && v.b
  }

  /** `a` is `b` with some elements taken out, the rest kept in order. */
  predicate IsSubsequence<T(==)>(a: seq<T>, b: seq<T>) {
    if a == [] then true
    else if b == [] then false
    else (a[0] == b[0] && IsSubsequence(a[1..], b[1..])) || IsSubsequence(a, b[1..])
  }

  lemma {:induction false} SubsequenceShorter<T>(a: seq<T>, b: seq<T>)
    requires IsSubsequence(a, b)
    ensures |a| <= |b|
    ensures forall i :: 0 <= i < |a| ==> a[i] in b
  {
    if a != [] && b != [] {
      if a[0] == b[0] && IsSubsequence(a[1..], b[1..]) {
        SubsequenceShorter(a[1..], b[1..]);
        assert a == [a[0]] + a[1..];
        assert b == [b[0]] + b[1..];
      } else {
        SubsequenceShorter(a, b[1..]);
        assert b == [b[0]] + b[1..];
      }
    }
  }

  /** `Array.prototype.filter`: every passing occurrence is kept, in order,
      and nothing else. */
  function ArrayFilter<T(==,!new)>(xs: seq<T>, keep: T -> bool): (r: seq<T>)
    ensures IsSubsequence(r, xs)
    ensures forall i :: 0 <= i < |r| ==> r[i] in xs && keep(r[i])
    ensures forall i :: 0 <= i < |xs| && keep(xs[i]) ==> xs[i] in r
    ensures forall x :: multiset(r)[x] == if keep(x) then multiset(xs)[x] else 0
  {
    if xs == [] then []
    else
      var rest := ArrayFilter(xs[1..], keep);
      assert xs == [xs[0]] + xs[1..];
      if keep(xs[0]) then
        assert ([xs[0]] + rest)[1..] == rest;
        [xs[0]] + rest
      else rest
  }

  /** Filtering a sequence whose every element passes gives it back unchanged. */
  lemma {:induction false} FilterKeepsAll<T(!new)>(xs: seq<T>, keep: T -> bool)
    requires forall i :: 0 <= i < |xs| ==> keep(xs[i])
    ensures ArrayFilter(xs, keep) == xs
  {
    if xs != [] {
      FilterKeepsAll(xs[1..], keep);
      assert xs == [xs[0]] + xs[1..];
    }
  }

  /** Filtering twice with the same callback is filtering once. */
  lemma FilterIdempotent<T(!new)>(xs: seq<T>, keep: T -> bool)
    ensures ArrayFilter(ArrayFilter(xs, keep), keep) == ArrayFilter(xs, keep)
  {
    FilterKeepsAll(ArrayFilter(xs, keep), keep);
  }

  /** When exactly the element at `k` passes, filtering gives just that element. */
  lemma {:induction false} FilterSingle<T(!new)>(xs: seq<T>, keep: T -> bool, k: nat)
    requires k < |xs| && keep(xs[k])
    requires forall i :: 0 <= i < |xs| && i != k ==> !keep(xs[i])
    ensures ArrayFilter(xs, keep) == [xs[k]]
  {
    var rest := ArrayFilter(xs[1..], keep);
    if k > 0 {
      FilterSingle(xs[1..], keep, k - 1);
    }
  }

  /** `Array.prototype.every`: true unless some callback result is falsy. */
  function ArrayEvery<T>(xs: seq<T>, callback: T -> JsValue): (r: bool)
    ensures r <==> forall i :: 0 <= i < |xs| ==> Truthy(callback(xs[i]))
  {
    if xs == [] then true
    else if !Truthy(callback(xs[0])) then false
    else
      var rest := ArrayEvery(xs[1..], callback);
      assert forall i :: 1 <= i < |xs| ==> xs[i] == xs[1..][i - 1];
      rest
  }

  /** `Array.prototype.some`: true when some element satisfies the predicate. */
  function ArraySome<T>(xs: seq<T>, p: T -> bool): (r: bool)
    ensures r <==> exists i :: 0 <= i < |xs| && p(xs[i])
  {
    if xs == [] then false
    else if p(xs[0]) then true
    else
      var rest := ArraySome(xs[1..], p);
      assert forall i :: 1 <= i < |xs| ==> xs[i] == xs[1..][i - 1];
      rest
  }

  /** `xs[i]` is the first element of `xs` that satisfies `p`. */
  predicate IsFirstMatch<T>(xs: seq<T>, p: T -> bool, i: int) {
    0 <= i < |xs| && p(xs[i]) && forall j :: 0 <= j < i ==> !p(xs[j])
  }

  /** `Array.prototype.find`: the first element satisfying `p`, or `undefined`. */
  function ArrayFind<T(==)>(xs: seq<T>, p: T -> bool): (r: Option<T>)
    ensures r.Some? ==> exists i :: IsFirstMatch(xs, p, i) && xs[i] == r.value
    ensures r.None? <==> forall i :: 0 <= i < |xs| ==> !p(xs[i])
  {
    if xs == [] then None
    else if p(xs[0]) then
      assert IsFirstMatch(xs, p, 0);
      Some(xs[0])
    else
      var rest := ArrayFind(xs[1..], p);
      assert forall i :: 1 <= i < |xs| ==> xs[i] == xs[1..][i - 1];
      if rest.Some? then
        var k :| IsFirstMatch(xs[1..], p, k) && xs[1..][k] == rest.value;
        assert IsFirstMatch(xs, p, k + 1);
        rest
      else rest
  }

  /** There is one first match, so two of them are the same index. */
  lemma FirstMatchUnique<T>(xs: seq<T>, p: T -> bool, i: int, k: int)
    requires IsFirstMatch(xs, p, i) && IsFirstMatch(xs, p, k)
    ensures i == k
  {
  }

  /** `String.prototype.toLowerCase` on one character, for the ASCII letters. */
  function ToLowerChar(c: char): (r: char)
    ensures 'A' <= c <= 'Z' ==> 'a' <= r <= 'z' && r as int - c as int == 32
    ensures !('A' <= c <= 'Z') ==> r == c
  {
    if 'A' <= c <= 'Z' then (c as int + 32) as char else c
  }

  /** `String.prototype.toLowerCase`, character by character. */
  function ToLowerCase(s: string): (r: string)
    ensures |r| == |s|
    ensures forall i :: 0 <= i < |s| ==> r[i] == ToLowerChar(s[i])
  {
    if s == [] then []
    else [ToLowerChar(s[0])] + ToLowerCase(s[1..])
  }

  /** Two strings that differ at most in the case of their letters. */
  predicate SameIgnoringCase(a: string, b: string) {
    |a| == |b| && forall i :: 0 <= i < |a| ==> ToLowerChar(a[i]) == ToLowerChar(b[i])
  }

  lemma SameIgnoringCaseLower(a: string, b: string)
    requires SameIgnoringCase(a, b)
    ensures ToLowerCase(a) == ToLowerCase(b)
  {
    var la, lb := ToLowerCase(a), ToLowerCase(b);
    assert forall i :: 0 <= i < |la| ==> la[i] == lb[i];
  }

  /** `needle` occurs in `haystack` starting at index `i`. */
  predicate OccursAt(haystack: string, needle: string, i: int) {
    0 <= i && i + |needle| <= |haystack| && haystack[i..i + |needle|] == needle
  }

  /** `String.prototype.includes`: the empty needle is in every string. */
  function StringIncludes(haystack: string, needle: string): (r: bool)
    ensures r <==> exists i :: OccursAt(haystack, needle, i)
  {
    if |needle| <= |haystack| && haystack[..|needle|] == needle then
      assert OccursAt(haystack, needle, 0);
      true
    else if haystack == [] then false
    else
      var rest := StringIncludes(haystack[1..], needle);
      ShiftOccurrence(haystack, needle);
      rest
  }

  lemma ShiftOccurrence(haystack: string, needle: string)
    requires haystack != []
    requires !OccursAt(haystack, needle, 0)
    ensures (exists i :: OccursAt(haystack, needle, i)) <==> (exists i :: OccursAt(haystack[1..], needle, i))
  {
    forall i | OccursAt(haystack, needle, i)
      ensures OccursAt(haystack[1..], needle, i - 1)
    {
      assert haystack[1..][i - 1..i - 1 + |needle|] == haystack[i..i + |needle|];
    }
    forall i | OccursAt(haystack[1..], needle, i)
      ensures OccursAt(haystack, needle, i + 1)
    {
      assert haystack[1..][i..i + |needle|] == haystack[i + 1..i + 1 + |needle|];
    }
  }
}
