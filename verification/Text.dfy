/**
  The string operations the receiver borrows from Go's `strings` package, over
  Unicode characters: trimming, searching, splitting and joining.
 */
module Text {

  datatype Option<+T> = None | Some(value: T)

  datatype Result<+T, +E> = Ok(value: T) | Err(error: E)

  /** `unicode.IsSpace`. */
  predicate IsSpace(c: char) {
    var n := c as int;
    || 0x09 <= n <= 0x0d || n == 0x20 || n == 0x85 || n == 0xa0
    || n == 0x1680 || 0x2000 <= n <= 0x200a || n == 0x2028 || n == 0x2029
    || n == 0x202f || n == 0x205f || n == 0x3000
  }

  predicate IsQuote(c: char) {
    c == '\''
  }

  /** A text without characters from the cut set at either end. */
  predicate Trimmed(s: string, cut: char -> bool) {
    s != "" ==> !cut(s[0]) && !cut(s[|s| - 1])
  }

  function TrimLeft(s: string, cut: char -> bool): (t: string)
    ensures |t| <= |s| && t == s[|s| - |t|..]
    ensures t != "" ==> !cut(t[0])
    ensures forall i :: 0 <= i < |s| - |t| ==> cut(s[i])
  {
    if s != "" && cut(s[0]) then TrimLeft(s[1..], cut) else s
  }

  function TrimRight(s: string, cut: char -> bool): (t: string)
    ensures |t| <= |s| && t == s[..|t|]
    ensures t != "" ==> !cut(t[|t| - 1])
    ensures forall i :: |t| <= i < |s| ==> cut(s[i])
  {
    if s != "" && cut(s[|s| - 1]) then TrimRight(s[..|s| - 1], cut) else s
  }

  /** `strings.Trim` and `strings.TrimSpace`. */
  function Trim(s: string, cut: char -> bool): (t: string)
    ensures |t| <= |s| && Trimmed(t, cut)
    ensures Trimmed(s, cut) ==> t == s
    ensures forall c :: c in t ==> c in s
  {
    TrimRight(TrimLeft(s, cut), cut)
  }

  function TrimSpace(s: string): (t: string)
    ensures Trimmed(t, IsSpace)
    ensures Trimmed(s, IsSpace) ==> t == s
  {
    Trim(s, IsSpace)
  }

  /** `strings.IndexByte`: the first position of a character, or -1. */
  function Find(s: string, c: char): (i: int)
    ensures -1 <= i < |s|
    ensures i >= 0 ==> s[i] == c && forall k :: 0 <= k < i ==> s[k] != c
    ensures i < 0 ==> c !in s
  {
    if s == "" then -1
    else if s[0] == c then 0
    else
      var i := Find(s[1..], c);
      assert s == [s[0]] + s[1..];
      if i < 0 then -1 else i + 1
  }

  /** `strings.LastIndex` of a single character. */
  function FindLast(s: string, c: char): (i: int)
    ensures -1 <= i < |s|
    ensures i >= 0 ==> s[i] == c && forall k :: i < k < |s| ==> s[k] != c
    ensures i < 0 ==> c !in s
  {
    if s == "" then -1
    else if s[|s| - 1] == c then |s| - 1
    else
      assert s == s[..|s| - 1] + [s[|s| - 1]];
      FindLast(s[..|s| - 1], c)
  }

  lemma AroundSeparator(left: string, c: char, right: string)
    ensures var s := left + [c] + right; s[..|left|] == left && s[|left| + 1..] == right
  {
  }

  lemma {:induction false} FindAfter(left: string, c: char, right: string)
    requires c !in left
    ensures Find(left + [c] + right, c) == |left|
  {
    var s := left + [c] + right;
    if left == "" {
      assert s[0] == c;
    } else {
      assert s[0] == left[0] && left[0] in left;
      assert s[1..] == left[1..] + [c] + right;
      FindAfter(left[1..], c, right);
    }
  }

  lemma {:induction false} FindLastAfter(left: string, c: char, right: string)
    requires c !in right
    ensures FindLast(left + [c] + right, c) == |left|
  {
    var s := left + [c] + right;
    if right == "" {
      assert s[|s| - 1] == c;
    } else {
      assert s[|s| - 1] == right[|right| - 1] && right[|right| - 1] in right;
      assert s[..|s| - 1] == left + [c] + right[..|right| - 1];
      FindLastAfter(left, c, right[..|right| - 1]);
    }
  }

  /** `strings.Split` at a single character; never empty. */
  function Split(s: string, sep: char): (parts: seq<string>)
    ensures |parts| > 0
    decreases |s|
  {
    var i := Find(s, sep);
    if i < 0 then [s] else [s[..i]] + Split(s[i + 1..], sep)
  }

  function Join(parts: seq<string>, sep: char): string {
    if |parts| == 0 then ""
    else if |parts| == 1 then parts[0]
    else parts[0] + [sep] + Join(parts[1..], sep)
  }

  ghost predicate FreeOf(parts: seq<string>, c: char) {
    forall i :: 0 <= i < |parts| ==> c !in parts[i]
  }

  /** Splitting undoes joining ... */
  lemma {:induction false} SplitJoin(parts: seq<string>, sep: char)
    requires |parts| > 0 && FreeOf(parts, sep)
    ensures Split(Join(parts, sep), sep) == parts
  {
    var s := Join(parts, sep);
    if |parts| == 1 {
      assert parts == [parts[0]];
    } else {
      FindAfter(parts[0], sep, Join(parts[1..], sep));
      AroundSeparator(parts[0], sep, Join(parts[1..], sep));
      SplitJoin(parts[1..], sep);
      assert parts == [parts[0]] + parts[1..];
    }
  }

  /** ... and joining undoes splitting, whose parts never hold the separator. */
  lemma {:induction false} JoinSplit(s: string, sep: char)
    ensures Join(Split(s, sep), sep) == s && FreeOf(Split(s, sep), sep)
    decreases |s|
  {
    var i := Find(s, sep);
    if i >= 0 {
      JoinSplit(s[i + 1..], sep);
      var rest := Split(s[i + 1..], sep);
      assert ([s[..i]] + rest)[1..] == rest;
      assert s == s[..i] + [sep] + s[i + 1..];
    }
  }

  lemma {:induction false} JoinFreeOf(parts: seq<string>, sep: char, c: char)
    requires c != sep && FreeOf(parts, c)
    ensures c !in Join(parts, sep)
  {
    if |parts| > 1 {
      JoinFreeOf(parts[1..], sep, c);
    }
  }

  lemma {:induction false} JoinSnoc(parts: seq<string>, last: string, sep: char)
    requires |parts| > 0
    ensures Join(parts + [last], sep) == Join(parts, sep) + [sep] + last
  {
    var all := parts + [last];
    assert all[1..] == parts[1..] + [last];
    if |parts| == 1 {
      assert all[1..] == [last];
    } else {
      JoinSnoc(parts[1..], last, sep);
      assert all[0] + [sep] + (Join(parts[1..], sep) + [sep] + last) == Join(parts, sep) + [sep] + last;
    }
  }

  lemma Unsnoc<T>(s: seq<T>)
    requires |s| > 0
    ensures s == s[..|s| - 1] + [s[|s| - 1]]
  {
  }

  lemma LastOfConcat<T>(xs: seq<T>, ys: seq<T>)
    requires |ys| > 0
    ensures (xs + ys)[..|xs + ys| - 1] == xs + ys[..|ys| - 1] && (xs + ys)[|xs + ys| - 1] == ys[|ys| - 1]
  {
  }

  lemma FirstOfConcat<T>(xs: seq<T>, ys: seq<T>)
    requires |xs| > 0
    ensures (xs + ys)[0] == xs[0] && (xs + ys)[1..] == xs[1..] + ys
  {
  }

  lemma SnocParts<T>(xs: seq<T>, x: T)
    ensures (xs + [x])[..|xs + [x]| - 1] == xs && (xs + [x])[|xs + [x]| - 1] == x
  {
    LastOfConcat(xs, [x]);
    EmptyConcat(xs);
  }

  lemma EmptyConcat<T>(s: seq<T>)
    ensures s + [] == s && [] + s == s
  {
  }

  lemma Regroup<T>(a: seq<T>, b: seq<T>, c: seq<T>)
    ensures a + (b + c) == a + b + c
  {
  }

  lemma EqualParts<T>(a: seq<T>, x: seq<T>, b: seq<T>, y: seq<T>)
    requires |a| <= |b| && |x| <= |y|
    ensures a + x == b + y <==> a == b && x == y
  {
    if a + x == b + y {
      assert |a| == |b|;
      assert a == (a + x)[..|a|] == (b + y)[..|a|] == b;
      assert x == (a + x)[|a|..] == (b + y)[|a|..] == y;
    }
  }

  function Flatten<T>(xss: seq<seq<T>>): seq<T> {
    if |xss| == 0 then [] else xss[0] + Flatten(xss[1..])
  }

  lemma {:induction false} FlattenAppend<T>(a: seq<seq<T>>, b: seq<seq<T>>)
    ensures Flatten(a + b) == Flatten(a) + Flatten(b)
  {
    if |a| == 0 {
      assert a + b == b;
    } else {
      FlattenAppend(a[1..], b);
      assert (a + b)[0] == a[0] && (a + b)[1..] == a[1..] + b;
      assert a[0] + (Flatten(a[1..]) + Flatten(b)) == a[0] + Flatten(a[1..]) + Flatten(b);
    }
  }
}
