/** JavaScript values and string operations that the banking code relies on:
    nullable values, truthiness of strings, String.prototype.slice with negative
    indices, toUpperCase / toLowerCase, trim, includes and replace(/c/g, d). */
module Js {

  /** A value that may be null or undefined in the source. */
  datatype Option<+T> = None | Some(value: T)

  /** `x` used as a condition, for an optional string: null, undefined and "" are falsy. */
  predicate Truthy(x: Option<string>) {
    x.Some? && x.value != ""
  }

  /** `a || b` for an optional string: the first operand when it is truthy, else the second. */
  function OrElse(a: Option<string>, b: string): (r: string)
    ensures Truthy(a) ==> r == a.value
    ensures !Truthy(a) ==> r == b
  {
    if Truthy(a) then a.value else b
  }

  /** `${x}` in a template literal for a value that may be undefined. */
  function InterpolateUndefined(x: Option<string>): string {
    match x
    case Some(v) => v
    case None => "undefined"
  }

  /** `${x}` in a template literal for a column that may be null. */
  function InterpolateNull(x: Option<string>): string {
    match x
    case Some(v) => v
    case None => "null"
  }

  // ---------------------------------------------------------------------------
  // slice

  /** How slice normalizes one index: negative counts from the end, out of range is clamped. */
  function ClampIndex(i: int, len: nat): (r: nat)
    ensures r <= len
  {
    if i < 0 then (if len + i < 0 then 0 else len + i)
    else if i > len then len
    else i
  }

  /** `s.slice(start, end)` */
  function Slice<T>(s: seq<T>, start: int, end: int): (r: seq<T>)
    ensures |r| <= |s|
    ensures var a, b := ClampIndex(start, |s|), ClampIndex(end, |s|);
            r == if a < b then s[a..b] else []
  {
    var a, b := ClampIndex(start, |s|), ClampIndex(end, |s|);
    if a < b then s[a..b] else []
  }

  /** `s.slice(start)` */
  function SliceFrom<T>(s: seq<T>, start: int): (r: seq<T>)
    ensures |r| <= |s|
  {
    Slice(s, start, |s|)
  }

  /** `s.slice(0, n)` is the first n elements, or all of s when it is shorter. */
  lemma SlicePrefix<T>(s: seq<T>, n: nat)
    ensures Slice(s, 0, n) == if n <= |s| then s[..n] else s
  {
  }

  /** `s.slice(-n)` is the last n elements, or all of s when it is shorter. */
  lemma SliceLast<T>(s: seq<T>, n: nat)
    requires n > 0
    ensures SliceFrom(s, -(n as int)) == if n <= |s| then s[|s| - n..] else s
  {
  }

  // ---------------------------------------------------------------------------
  // filter

  /** `s.filter(keep)` */
  function Filter<T>(s: seq<T>, keep: T -> bool): (r: seq<T>)
    ensures |r| <= |s|
    ensures forall i :: 0 <= i < |r| ==> r[i] in s && keep(r[i])
    ensures forall i :: 0 <= i < |s| && keep(s[i]) ==> s[i] in r
  {
    if s == [] then [] else (if keep(s[0]) then [s[0]] else []) + Filter(s[1..], keep)
  }

  /** Filtering distributes over concatenation. */
  lemma {:induction false} FilterAppend<T>(a: seq<T>, b: seq<T>, keep: T -> bool)
    ensures Filter(a + b, keep) == Filter(a, keep) + Filter(b, keep)
    decreases |a|
  {
    if a == [] {
      assert a + b == b;
    } else {
      assert (a + b)[1..] == a[1..] + b;
      FilterAppend(a[1..], b, keep);
    }
  }

  /** Filtering keeps relative order: two kept elements appear in the result in the order they had. */
  lemma FilterOrder<T>(s: seq<T>, keep: T -> bool, i: nat, j: nat)
    requires i < j < |s| && keep(s[i]) && keep(s[j])
    ensures exists p, q :: 0 <= p < q < |Filter(s, keep)| && Filter(s, keep)[p] == s[i] && Filter(s, keep)[q] == s[j]
  {
    var front, back := s[..j], s[j..];
    assert s == front + back;
    FilterAppend(front, back, keep);
    assert s[i] in front;
    var pre := Filter(front, keep);
    var p :| 0 <= p < |pre| && pre[p] == s[i];
    assert back[0] == s[j];
    assert back == [back[0]] + back[1..];
    assert Filter(back, keep)[0] == s[j];
    assert Filter(s, keep)[p] == s[i] && Filter(s, keep)[|pre|] == s[j];
  }

  /** When every element is kept, filtering returns the sequence itself. */
  lemma {:induction false} FilterKeepsAll<T>(s: seq<T>, keep: T -> bool)
    requires forall i :: 0 <= i < |s| ==> keep(s[i])
    ensures Filter(s, keep) == s
    decreases |s|
  {
    if s != [] {
      FilterKeepsAll(s[1..], keep);
    }
  }

  // ---------------------------------------------------------------------------
  // case mapping (ASCII letters only)

  function UpperChar(c: char): (d: char)
    ensures 'a' <= c <= 'z' ==> 'A' <= d <= 'Z' && d as int == c as int - 32
    ensures !('a' <= c <= 'z') ==> d == c
  {
    if 'a' <= c <= 'z' then (c as int - 32) as char else c
  }

  function LowerChar(c: char): (d: char)
    ensures 'A' <= c <= 'Z' ==> 'a' <= d <= 'z' && d as int == c as int + 32
    ensures !('A' <= c <= 'Z') ==> d == c
  {
    if 'A' <= c <= 'Z' then (c as int + 32) as char else c
  }

  /** `s.toUpperCase()` */
  function ToUpper(s: string): (r: string)
    ensures |r| == |s|
    ensures forall i :: 0 <= i < |s| ==> r[i] == UpperChar(s[i])
  {
    if s == [] then [] else [UpperChar(s[0])] + ToUpper(s[1..])
  }

  /** `s.toLowerCase()` */
  function ToLower(s: string): (r: string)
    ensures |r| == |s|
    ensures forall i :: 0 <= i < |s| ==> r[i] == LowerChar(s[i])
  {
    if s == [] then [] else [LowerChar(s[0])] + ToLower(s[1..])
  }

  /** Upper-casing twice is upper-casing once. */
  lemma ToUpperIdempotent(s: string)
    ensures ToUpper(ToUpper(s)) == ToUpper(s)
  {
  }

  /** `s.toUpperCase()` of a prefix is the prefix of `s.toUpperCase()`. */
  lemma ToUpperPrefix(s: string, n: nat)
    requires n <= |s|
    ensures ToUpper(s[..n]) == ToUpper(s)[..n]
  {
  }

  // ---------------------------------------------------------------------------
  // replace(/c/g, d)

  /** `s.replace(/c/g, d)` for a one-character pattern c and replacement d. */
  function ReplaceAll(s: string, c: char, d: char): (r: string)
    ensures |r| == |s|
    ensures forall i :: 0 <= i < |s| ==> r[i] == if s[i] == c then d else s[i]
  {
    if s == [] then [] else [if s[0] == c then d else s[0]] + ReplaceAll(s[1..], c, d)
  }

  // ---------------------------------------------------------------------------
  // includes

  /** `s.includes(t)`: t occurs in s at some position. */
  predicate Includes(s: string, t: string)
    decreases |s|
  {
    t <= s || (|s| > 0 && Includes(s[1..], t))
  }

  /** Includes holds exactly when t starts at some index k of s. */
  lemma {:induction false} IncludesIff(s: string, t: string)
    ensures Includes(s, t) <==> exists k :: 0 <= k <= |s| && t <= s[k..]
    decreases |s|
  {
    assert s[0..] == s;
    if |s| > 0 {
      IncludesIff(s[1..], t);
      if Includes(s, t) && !(t <= s) {
        var k :| 0 <= k <= |s[1..]| && t <= s[1..][k..];
        assert s[1..][k..] == s[k + 1..];
      }
      if k :| 0 <= k <= |s| && t <= s[k..] {
        if k > 0 {
          assert s[1..][k - 1..] == s[k..];
        }
      }
    }
  }

  /** Every string includes the empty string. */
  lemma IncludesEmpty(s: string)
    ensures Includes(s, "")
  {
  }

  // ---------------------------------------------------------------------------
  // trim

  /** The characters String.prototype.trim removes: ECMAScript WhiteSpace and LineTerminator. */
  predicate IsWhitespace(c: char) {
    var n := c as int;
    n == 0x09 || n == 0x0A || n == 0x0B || n == 0x0C || n == 0x0D || n == 0x20 ||
    n == 0xA0 || n == 0x1680 || (0x2000 <= n <= 0x200A) || n == 0x2028 || n == 0x2029 ||
    n == 0x202F || n == 0x205F || n == 0x3000 || n == 0xFEFF
  }

  predicate AllWhitespace(s: string) {
    forall i :: 0 <= i < |s| ==> IsWhitespace(s[i])
  }

  /** Drops leading whitespace: the result is a suffix of s, everything dropped is whitespace,
      and the result is empty or starts with a non-whitespace character. */
  function TrimStart(s: string): (r: string)
    ensures |r| <= |s| && r == s[|s| - |r|..]
    ensures AllWhitespace(s[..|s| - |r|])
    ensures r == [] || !IsWhitespace(r[0])
  {
    if s != [] && IsWhitespace(s[0]) then
      var r := TrimStart(s[1..]);
      assert s[..|s| - |r|] == [s[0]] + s[1..][..|s[1..]| - |r|];
      r
    else s
  }

  /** Drops trailing whitespace: the result is a prefix of s, everything dropped is whitespace,
      and the result is empty or ends with a non-whitespace character. */
  function TrimEnd(s: string): (r: string)
    ensures |r| <= |s| && r == s[..|r|]
    ensures AllWhitespace(s[|r|..])
    ensures r == [] || !IsWhitespace(r[|r| - 1])
  {
    if s != [] && IsWhitespace(s[|s| - 1]) then
      var r := TrimEnd(s[..|s| - 1]);
      assert s[|r|..] == s[..|s| - 1][|r|..] + [s[|s| - 1]];
      r
    else s
  }

  /** `s.trim()`: s with exactly its leading and trailing whitespace removed. */
  function Trim(s: string): (r: string)
    ensures |r| <= |s|
    ensures exists a, b :: 0 <= a <= b <= |s| && r == s[a..b] && AllWhitespace(s[..a]) && AllWhitespace(s[b..])
    ensures r == [] || (!IsWhitespace(r[0]) && !IsWhitespace(r[|r| - 1]))
  {
    TrimEnd(TrimStart(s))
  }

  /** `s.trim()` is the empty string exactly when every character of s is whitespace;
      so `if (s.trim())` passes exactly when s holds a non-whitespace character. */
  lemma {:induction false} TrimEmptyIff(s: string)
    ensures Trim(s) == "" <==> AllWhitespace(s)
  {
    var t := TrimStart(s);
    var k := |s| - |t|;
    if t == [] {
      assert s[..k] == s;
    } else {
      assert t[0] == s[k];
      assert t[0..] == t;
    }
  }
}
