/**
 * Python `str` operations the core relies on, stated over `seq<char>`:
 * slicing with negative bounds, `find`, `in`, `replace`, `split`, `join`,
 * `strip` and `lower`.
 */
module Strings {
  import opened Common

  /** Python `s[:k]`, including a negative `k` counted from the end. */
  function SliceTo(s: string, k: int): (r: string)
    ensures k >= 0 ==> r == s[..Min(k, |s|)]
    ensures k < 0 ==> r == s[..Max(0, |s| + k)]
  {
    if k >= 0 then s[..Min(k, |s|)] else s[..Max(0, |s| + k)]
  }

  /** Python `s[k:]`, including a negative `k` counted from the end. */
  function SliceFrom(s: string, k: int): (r: string)
    ensures k >= 0 ==> r == s[Min(k, |s|)..]
    ensures k < 0 ==> r == s[Max(0, |s| + k)..]
  {
    if k >= 0 then s[Min(k, |s|)..] else s[Max(0, |s| + k)..]
  }

  predicate OccursAt(s: string, pat: string, i: int)
  {
    0 <= i && i + |pat| <= |s| && s[i..i + |pat|] == pat
  }

  function FindFrom(s: string, pat: string, i: nat): (r: int)
    decreases |s| - i
    ensures r == -1 || (i <= r && OccursAt(s, pat, r))
    ensures forall j :: i <= j && (r == -1 || j < r) ==> !OccursAt(s, pat, j)
  {
    if i + |pat| > |s| then -1
    else if s[i..i + |pat|] == pat then i
    else FindFrom(s, pat, i + 1)
  }

  /** Python `s.find(pat)`: the least index where `pat` occurs, or -1. */
  function Find(s: string, pat: string): (r: int)
    ensures r == -1 || OccursAt(s, pat, r)
    ensures forall j :: 0 <= j && (r == -1 || j < r) ==> !OccursAt(s, pat, j)
  {
    FindFrom(s, pat, 0)
  }

  /** Python `pat in s`. */
  predicate Contains(s: string, pat: string)
  {
    Find(s, pat) >= 0
  }

  /** `s.startswith(p)`, for any sequence. */
  predicate IsPrefix<T(==)>(p: seq<T>, s: seq<T>)
  {
    |p| <= |s| && s[..|p|] == p
  }

  /** `s.endswith(t)`, for any sequence. */
  predicate IsSuffix<T(==)>(t: seq<T>, s: seq<T>)
  {
    |t| <= |s| && s[|s| - |t|..] == t
  }

  /** An occurrence found in `x` is still the first one once `x` is extended. */
  lemma FindExtend(x: string, rest: string, pat: string)
    requires Find(x, pat) >= 0
    ensures Find(x + rest, pat) == Find(x, pat)
  {
    var k := Find(x, pat);
    assert OccursAt(x, pat, k);
    assert (x + rest)[k..k + |pat|] == x[k..k + |pat|];
    assert OccursAt(x + rest, pat, k);
    forall j | 0 <= j < k
      ensures !OccursAt(x + rest, pat, j)
    {
      assert !OccursAt(x, pat, j);
      assert j + |pat| <= |x|;
      assert (x + rest)[j..j + |pat|] == x[j..j + |pat|];
    }
    var r := Find(x + rest, pat);
    assert r != -1 ==> r >= k;
  }

  /** `Find` on `t + pat + u` when the first occurrence is the one right after `t`. */
  lemma FindAfterLead(t: string, pat: string, u: string)
    requires forall j :: 0 <= j < |t| ==> !OccursAt(t + pat, pat, j)
    ensures Find(t + pat + u, pat) == |t|
  {
    var x := t + pat;
    assert x[|t|..|t| + |pat|] == pat;
    assert OccursAt(x, pat, |t|);
    FindExtend(x, u, pat);
  }

  function InsertBetween(s: string, ins: string): (r: string)
    ensures |r| == |s| + (|s| + 1) * |ins|
  {
    if s == [] then ins else ins + [s[0]] + InsertBetween(s[1..], ins)
  }

  /** Python `s.replace(target, repl)`: every non-overlapping occurrence, left to right. */
  function Replace(s: string, target: string, repl: string): (r: string)
    decreases |s|
  {
    if target == [] then InsertBetween(s, repl)
    else
      var i := Find(s, target);
      if i < 0 then s else s[..i] + repl + Replace(s[i + |target|..], target, repl)
  }

  /** Replacing something absent leaves the string unchanged. */
  lemma ReplaceAbsent(s: string, target: string, repl: string)
    requires target != [] && !Contains(s, target)
    ensures Replace(s, target, repl) == s
  {
  }

  /** The first occurrence after a lead `t` is rewritten and the scan resumes after it. */
  lemma ReplaceStep(t: string, target: string, u: string, repl: string)
    requires target != []
    requires forall j :: 0 <= j < |t| ==> !OccursAt(t + target, target, j)
    ensures Replace(t + target + u, target, repl) == t + repl + Replace(u, target, repl)
  {
    var s := t + target + u;
    FindAfterLead(t, target, u);
    assert s[..|t|] == t;
    assert s[|t| + |target|..] == u;
  }

  /** Python `sep.join(parts)`. */
  function Join(sep: string, parts: seq<string>): (r: string)
    ensures parts == [] ==> r == ""
  {
    if parts == [] then ""
    else if |parts| == 1 then parts[0]
    else parts[0] + sep + Join(sep, parts[1..])
  }

  /** A join starts with its first part. */
  lemma JoinStartsWithFirst(sep: string, parts: seq<string>)
    requires parts != []
    ensures IsPrefix(parts[0], Join(sep, parts))
  {
    if |parts| > 1 {
      assert Join(sep, parts) == parts[0] + (sep + Join(sep, parts[1..]));
    }
  }

  function IndexOf(s: string, c: char): (r: int)
    ensures r == -1 <==> c !in s
    ensures r >= 0 ==> r < |s| && s[r] == c && c !in s[..r]
  {
    if s == [] then -1
    else if s[0] == c then 0
    else var k := IndexOf(s[1..], c); if k < 0 then -1 else k + 1
  }

  /** Python `s.split(c)` for a one-character separator. */
  function Split(s: string, c: char): (r: seq<string>)
    decreases |s|
    ensures |r| >= 1
    ensures forall k :: 0 <= k < |r| ==> c !in r[k]
  {
    var i := IndexOf(s, c);
    if i < 0 then [s] else [s[..i]] + Split(s[i + 1..], c)
  }

  /** Splitting a join of separator-free parts gives the parts back. */
  lemma {:induction false} SplitJoin(parts: seq<string>, c: char)
    requires |parts| >= 1
    requires forall k :: 0 <= k < |parts| ==> c !in parts[k]
    ensures Split(Join([c], parts), c) == parts
  {
    if |parts| == 1 {
      assert IndexOf(parts[0], c) == -1;
    } else {
      var s := Join([c], parts);
      var tail := Join([c], parts[1..]);
      assert s == parts[0] + [c] + tail;
      IndexOfAfter(parts[0], c, tail);
      assert s[..|parts[0]|] == parts[0];
      assert s[|parts[0]| + 1..] == tail;
      SplitJoin(parts[1..], c);
    }
  }

  lemma IndexOfAfter(p: string, c: char, tail: string)
    requires c !in p
    ensures IndexOf(p + [c] + tail, c) == |p|
    decreases |p|
  {
    if p != [] {
      assert (p + [c] + tail)[1..] == p[1..] + [c] + tail;
      IndexOfAfter(p[1..], c, tail);
    }
  }

  /** Python `str.isspace()` restricted to the ASCII range. */
  predicate IsSpace(c: char)
  {
    c == ' ' || c == '\t' || c == '\n' || c == '\r' || c == '\U{000B}' || c == '\U{000C}' ||
    c == '\U{001C}' || c == '\U{001D}' || c == '\U{001E}' || c == '\U{001F}'
  }

  function TrimStart(s: string): (r: string)
    ensures |r| <= |s| && r == s[|s| - |r|..]
    ensures r != [] ==> !IsSpace(r[0])
    ensures forall k :: 0 <= k < |s| - |r| ==> IsSpace(s[k])
  {
    if s != [] && IsSpace(s[0]) then TrimStart(s[1..]) else s
  }

  function TrimEnd(s: string): (r: string)
    ensures |r| <= |s| && r == s[..|r|]
    ensures r != [] ==> !IsSpace(r[|r| - 1])
    ensures forall k :: |r| <= k < |s| ==> IsSpace(s[k])
  {
    if s != [] && IsSpace(s[|s| - 1]) then TrimEnd(s[..|s| - 1]) else s
  }

  /** Python `s.strip()`. */
  function Strip(s: string): (r: string)
  {
    TrimEnd(TrimStart(s))
  }

  /** A stripped string is empty exactly when the input is all whitespace. */
  lemma StripEmpty(s: string)
    ensures Strip(s) == [] <==> forall k :: 0 <= k < |s| ==> IsSpace(s[k])
  {
    var t := TrimStart(s);
    if Strip(s) == [] {
      forall k | 0 <= k < |s| ensures IsSpace(s[k]) {
        if k >= |s| - |t| {
          assert s[k] == t[k - (|s| - |t|)];
        }
      }
    } else {
      var r := Strip(s);
      assert r == t[..|r|];
      assert !IsSpace(t[0]);
      assert t[0] == s[|s| - |t|];
    }
  }

  function LowerChar(c: char): char
  {
    if 'A' <= c <= 'Z' then (c as int + 32) as char else c
  }

  /** Python `s.lower()` on the ASCII letters. */
  function Lower(s: string): (r: string)
    ensures |r| == |s|
    ensures forall k :: 0 <= k < |s| ==> r[k] == LowerChar(s[k])
  {
    if s == [] then [] else [LowerChar(s[0])] + Lower(s[1..])
  }
}
