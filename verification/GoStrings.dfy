/** The parts of Go's `strings` package the bot relies on, over `seq<char>`. */
module GoStrings {

  predicate HasPrefix(s: string, prefix: string) {
    prefix <= s
  }

  predicate Contains(s: string, sub: string) {
    exists i :: 0 <= i <= |s| - |sub| && HasPrefix(s[i..], sub)
  }

  /** Replaces non-overlapping occurrences from left to right. */
  function ReplaceAll(s: string, pat: string, rep: string): string
    requires pat != ""
    decreases |s|
  {
    if s == "" then ""
    else if HasPrefix(s, pat) then rep + ReplaceAll(s[|pat|..], pat, rep)
    else [s[0]] + ReplaceAll(s[1..], pat, rep)
  }

  predicate FirstAt(s: string, c: char, i: int) {
    0 <= i < |s| && s[i] == c && forall j :: 0 <= j < i ==> s[j] != c
  }

  predicate LastAt(s: string, c: char, i: int) {
    0 <= i < |s| && s[i] == c && forall j :: i < j < |s| ==> s[j] != c
  }

  /** Position of the first `c`, or -1. */
  function IndexOf(s: string, c: char): (i: int)
    ensures i == -1 <==> c !in s
    ensures i != -1 ==> FirstAt(s, c, i)
  {
    if c !in s then -1
    else
      FirstExists(s, c);
      var i :| FirstAt(s, c, i);
      i
  }

  /** Position of the last `c`, or -1. */
  function LastIndexOf(s: string, c: char): (i: int)
    ensures i == -1 <==> c !in s
    ensures i != -1 ==> LastAt(s, c, i)
  {
    if c !in s then -1
    else
      LastExists(s, c);
      var i :| LastAt(s, c, i);
      i
  }

  lemma {:induction false} FirstExists(s: string, c: char)
    requires c in s
    ensures exists i :: FirstAt(s, c, i)
  {
    if s[0] == c {
      assert FirstAt(s, c, 0);
    } else {
      assert s == [s[0]] + s[1..];
      FirstExists(s[1..], c);
      var i :| FirstAt(s[1..], c, i);
      assert FirstAt(s, c, i + 1);
    }
  }

  lemma {:induction false} LastExists(s: string, c: char)
    requires c in s
    ensures exists i :: LastAt(s, c, i)
  {
    var n := |s| - 1;
    if s[n] == c {
      assert LastAt(s, c, n);
    } else {
      assert s == s[..n] + [s[n]];
      LastExists(s[..n], c);
      var i :| LastAt(s[..n], c, i);
      assert LastAt(s, c, i);
    }
  }

  /** The pieces of `s` between occurrences of `sep`; never empty. */
  function Split(s: string, sep: char): (parts: seq<string>)
    ensures parts != []
    ensures forall p :: p in parts ==> sep !in p
    decreases |s|
  {
    var i := IndexOf(s, sep);
    if i == -1 then [s] else [s[..i]] + Split(s[i + 1..], sep)
  }

  function Join(parts: seq<string>, sep: char): string {
    if parts == [] then ""
    else if |parts| == 1 then parts[0]
    else parts[0] + [sep] + Join(parts[1..], sep)
  }

  /** The order of `<=` on strings. */
  predicate LexLeq(a: string, b: string) {
    if a == "" then true
    else if b == "" then false
    else if a[0] != b[0] then a[0] < b[0]
    else LexLeq(a[1..], b[1..])
  }

  /** Case folding of the ASCII letters. */
  function LowerOf(c: char): (r: char)
    ensures 'A' <= c <= 'Z' ==> 'a' <= r <= 'z' && r as int - 'a' as int == c as int - 'A' as int
  {
    if 'A' <= c <= 'Z' then (c as int + 32) as char else c
  }

  function ToLower(s: string): (r: string)
    ensures |r| == |s|
  {
    if s == "" then "" else [LowerOf(s[0])] + ToLower(s[1..])
  }

  lemma {:induction false} LowerAt(s: string, i: nat)
    requires i < |s|
    ensures ToLower(s)[i] == LowerOf(s[i])
    decreases |s|
  {
    if i > 0 {
      LowerAt(s[1..], i - 1);
    }
  }

  /** The White_Space code points, as `unicode.IsSpace` has them. */
  predicate IsSpace(c: char) {
    var u := c as int;
    || 0x09 <= u <= 0x0d || u == 0x20 || u == 0x85 || u == 0xa0 || u == 0x1680
    || 0x2000 <= u <= 0x200a || u == 0x2028 || u == 0x2029 || u == 0x202f || u == 0x205f || u == 0x3000
  }

  predicate Trimmed(s: string) {
    s != "" ==> !IsSpace(s[0]) && !IsSpace(s[|s| - 1])
  }

  function TrimSpace(s: string): (r: string)
    ensures Trimmed(r)
    ensures Trimmed(s) ==> r == s
    ensures forall c :: c in r ==> c in s
    decreases |s|
  {
    if s == "" then ""
    else if IsSpace(s[0]) then TrimSpace(s[1..])
    else if IsSpace(s[|s| - 1]) then TrimSpace(s[..|s| - 1])
    else s
  }

  predicate AllSpace(s: string) {
    forall i :: 0 <= i < |s| ==> IsSpace(s[i])
  }

  lemma SpaceInFront(c: char, before: string, t: string, after: string)
    requires IsSpace(c) && AllSpace(before)
    ensures AllSpace([c] + before) && [c] + (before + t + after) == ([c] + before) + t + after
  {
  }

  lemma SpaceBehind(before: string, t: string, after: string, c: char)
    requires IsSpace(c) && AllSpace(after)
    ensures AllSpace(after + [c]) && (before + t + after) + [c] == before + t + (after + [c])
  {
  }

  /** `t` is `s` without spaces at its ends. */
  ghost predicate LessSpaces(s: string, t: string) {
    exists before, after :: AllSpace(before) && AllSpace(after) && s == before + t + after
  }

  lemma LessInFront(s: string, t: string)
    requires s != "" && IsSpace(s[0]) && LessSpaces(s[1..], t)
    ensures LessSpaces(s, t)
  {
    var before, after :| AllSpace(before) && AllSpace(after) && s[1..] == before + t + after;
    SpaceInFront(s[0], before, t, after);
    assert s == [s[0]] + s[1..];
  }

  lemma LessBehind(s: string, t: string)
    requires s != "" && IsSpace(s[|s| - 1]) && LessSpaces(s[..|s| - 1], t)
    ensures LessSpaces(s, t)
  {
    var before, after :| AllSpace(before) && AllSpace(after) && s[..|s| - 1] == before + t + after;
    SpaceBehind(before, t, after, s[|s| - 1]);
    assert s == s[..|s| - 1] + [s[|s| - 1]];
  }

  /** Trimming takes off spaces at both ends and nothing else. */
  lemma {:induction false} TrimTakesSpaces(s: string)
    ensures LessSpaces(s, TrimSpace(s))
    decreases |s|
  {
    if s != "" && IsSpace(s[0]) {
      TrimTakesSpaces(s[1..]);
      LessInFront(s, TrimSpace(s));
    } else if s != "" && IsSpace(s[|s| - 1]) {
      TrimTakesSpaces(s[..|s| - 1]);
      LessBehind(s, TrimSpace(s));
    } else {
      assert AllSpace("") && s == "" + TrimSpace(s) + "";
    }
  }

  predicate DiffersAt(a: string, b: string, i: int) {
    0 <= i < |a| && i < |b| && a[i] < b[i] && forall j :: 0 <= j < i ==> a[j] == b[j]
  }

  /** The first place where two strings differ decides, and a prefix comes first. */
  ghost predicate DictionaryOrder(a: string, b: string) {
    a <= b || exists i :: DiffersAt(a, b, i)
  }

  lemma {:induction false} LexIsDictionaryOrder(a: string, b: string)
    ensures LexLeq(a, b) <==> DictionaryOrder(a, b)
    decreases |a|
  {
    if a != "" && b != "" {
      if a[0] == b[0] {
        LexIsDictionaryOrder(a[1..], b[1..]);
        DictionaryFromTail(a, b);
        DictionaryToTail(a, b);
      } else if a[0] < b[0] {
        assert DiffersAt(a, b, 0);
      }
    }
  }

  lemma DictionaryToTail(a: string, b: string)
    requires a != "" && b != "" && a[0] == b[0]
    ensures DictionaryOrder(a, b) ==> DictionaryOrder(a[1..], b[1..])
  {
    if !(a <= b) {
      if i :| DiffersAt(a, b, i) {
        assert DiffersAt(a[1..], b[1..], i - 1);
      }
    }
  }

  lemma DictionaryFromTail(a: string, b: string)
    requires a != "" && b != "" && a[0] == b[0]
    ensures DictionaryOrder(a[1..], b[1..]) ==> DictionaryOrder(a, b)
  {
    if a[1..] <= b[1..] {
      assert a == [a[0]] + a[1..] && b == [b[0]] + b[1..];
    } else if i :| DiffersAt(a[1..], b[1..], i) {
      assert DiffersAt(a, b, i + 1);
    }
  }

  /** The pieces, joined again, are the string. */
  lemma {:induction false} JoinSplit(s: string, sep: char)
    ensures Join(Split(s, sep), sep) == s
    decreases |s|
  {
    var i := IndexOf(s, sep);
    if i != -1 {
      JoinSplit(s[i + 1..], sep);
      assert s == s[..i] + [sep] + s[i + 1..];
      assert Split(s, sep)[1..] == Split(s[i + 1..], sep);
    }
  }

  lemma ContainsStep(s: string, sub: string)
    requires s != "" && sub != ""
    ensures Contains(s, sub) <==> HasPrefix(s, sub) || Contains(s[1..], sub)
  {
    assert s[0..] == s;
    if Contains(s, sub) && !HasPrefix(s, sub) {
      var i :| 0 <= i <= |s| - |sub| && HasPrefix(s[i..], sub);
      assert s[1..][i - 1..] == s[i..];
    }
    if Contains(s[1..], sub) {
      var i :| 0 <= i <= |s[1..]| - |sub| && HasPrefix(s[1..][i..], sub);
      assert s[1..][i..] == s[i + 1..];
    }
  }

  /** A string without the pattern stays as it is. */
  lemma {:induction false} ReplaceAbsent(s: string, pat: string, rep: string)
    requires pat != "" && !Contains(s, pat)
    ensures ReplaceAll(s, pat, rep) == s
    decreases |s|
  {
    if s != "" {
      ContainsStep(s, pat);
      ReplaceAbsent(s[1..], pat, rep);
    }
  }

  /** The leftmost occurrence is replaced, and the search goes on behind it. */
  lemma {:induction false} ReplaceLeftmost(s: string, pat: string, rep: string, i: nat)
    requires pat != "" && i <= |s| && HasPrefix(s[i..], pat)
    requires forall j :: 0 <= j < i ==> !HasPrefix(s[j..], pat)
    ensures i + |pat| <= |s|
    ensures ReplaceAll(s, pat, rep) == s[..i] + rep + ReplaceAll(s[i + |pat|..], pat, rep)
    decreases i
  {
    assert s[0..] == s;
    if i > 0 {
      forall j | 0 <= j < i ensures s[1..][j..] == s[j + 1..] {
      }
      ReplaceLeftmost(s[1..], pat, rep, i - 1);
      SliceShift(s, i, |pat|);
      PrependParts([s[0]], s[1..][..i - 1], rep, ReplaceAll(s[i + |pat|..], pat, rep));
    }
  }

  lemma PrependParts(h: string, a: string, r: string, t: string)
    ensures h + (a + r + t) == (h + a) + r + t
  {
  }

  lemma SliceShift(s: string, i: nat, n: nat)
    requires 0 < i && i + n <= |s|
    ensures s[1..][i - 1 + n..] == s[i + n..] && [s[0]] + s[1..][..i - 1] == s[..i]
  {
  }

  /** Splitting what was joined gives the pieces back. */
  lemma {:induction false} SplitJoin(parts: seq<string>, sep: char)
    requires parts != []
    requires forall p :: p in parts ==> sep !in p
    ensures Split(Join(parts, sep), sep) == parts
  {
    var s := Join(parts, sep);
    if |parts| == 1 {
      assert s == parts[0] && IndexOf(s, sep) == -1;
    } else {
      var rest := Join(parts[1..], sep);
      assert parts[0] in parts;
      SplitFirst(parts[0], rest, sep);
      SplitJoin(parts[1..], sep);
      assert parts == [parts[0]] + parts[1..];
    }
  }

  lemma CutAtSeparator(a: string, b: string, sep: char)
    ensures (a + [sep] + b)[|a|] == sep
    ensures (a + [sep] + b)[..|a|] == a && (a + [sep] + b)[|a| + 1..] == b
  {
  }

  lemma SplitFirst(a: string, b: string, sep: char)
    requires sep !in a
    ensures Split(a + [sep] + b, sep) == [a] + Split(b, sep)
  {
    var s := a + [sep] + b;
    CutAtSeparator(a, b, sep);
    assert forall j :: 0 <= j < |a| ==> s[j] == a[j];
    IndexOfFirst(s, sep, |a|);
  }

  lemma IndexOfFirst(s: string, c: char, k: int)
    requires FirstAt(s, c, k)
    ensures IndexOf(s, c) == k
  {
  }

  lemma LastIndexOfLast(s: string, c: char, k: int)
    requires LastAt(s, c, k)
    ensures LastIndexOf(s, c) == k
  {
  }

  lemma IndexOfAfter(a: string, b: string, c: char)
    requires c !in a
    ensures IndexOf(a + b, c) == if IndexOf(b, c) == -1 then -1 else |a| + IndexOf(b, c)
  {
    var i := IndexOf(b, c);
    if i != -1 {
      IndexOfFirst(a + b, c, |a| + i);
    }
  }

  lemma PrefixStep(s: string, c: char, p: string)
    ensures HasPrefix(s, [c] + p) <==> s != "" && s[0] == c && HasPrefix(s[1..], p)
  {
    if s != "" {
      assert forall i :: 0 <= i < |p| ==> ([c] + p)[i + 1] == p[i];
      if HasPrefix(s, [c] + p) {
        assert s[0] == ([c] + p)[0];
        assert forall i :: 0 <= i < |p| ==> s[1..][i] == ([c] + p)[i + 1];
      }
      if s[0] == c && HasPrefix(s[1..], p) {
        assert forall i :: 1 <= i <= |p| ==> s[i] == s[1..][i - 1] == p[i - 1];
      }
    }
  }

  /** Replacing a single character works piece by piece. */
  lemma {:induction false} ReplaceCharConcat(a: string, b: string, c: char, rep: string)
    ensures ReplaceAll(a + b, [c], rep) == ReplaceAll(a, [c], rep) + ReplaceAll(b, [c], rep)
    decreases |a|
  {
    if a == "" {
      assert a + b == b;
    } else {
      assert (a + b)[1..] == a[1..] + b && (a + b)[0] == a[0];
      ReplaceCharConcat(a[1..], b, c, rep);
      var head := if a[0] == c then rep else [a[0]];
      var ra, rb := ReplaceAll(a[1..], [c], rep), ReplaceAll(b, [c], rep);
      assert head + (ra + rb) == (head + ra) + rb;
    }
  }

  lemma {:induction false} LexTotal(a: string, b: string)
    ensures LexLeq(a, b) || LexLeq(b, a)
    decreases |a|
  {
    if a != "" && b != "" && a[0] == b[0] {
      LexTotal(a[1..], b[1..]);
    }
  }

  lemma {:induction false} LexAntisymmetric(a: string, b: string)
    requires LexLeq(a, b) && LexLeq(b, a)
    ensures a == b
    decreases |a|
  {
    if a != "" && b != "" {
      LexAntisymmetric(a[1..], b[1..]);
      assert a == [a[0]] + a[1..] && b == [b[0]] + b[1..];
    }
  }

  lemma {:induction false} LexTransitive(a: string, b: string, c: string)
    requires LexLeq(a, b) && LexLeq(b, c)
    ensures LexLeq(a, c)
    decreases |a|
  {
    if a != "" && c != "" && a[0] == b[0] == c[0] {
      LexTransitive(a[1..], b[1..], c[1..]);
    }
  }
}
