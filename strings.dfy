/** The part of Go's `strings` package that the SQL processor and the DSN
    builder rely on: TrimSpace, HasPrefix, HasSuffix, Contains, Split and
    ReplaceAll. A Go string is modelled as the sequence of its code points. */
module Strings {

  /** White space as Go's `unicode.IsSpace` classifies it. */
  predicate IsSpace(c: char) {
    || c == ' '
    || ('\t' <= c <= '\r')
    || c == '\U{85}' || c == '\U{A0}' || c == '\U{1680}'
    || ('\U{2000}' <= c <= '\U{200A}')
    || c == '\U{2028}' || c == '\U{2029}' || c == '\U{202F}' || c == '\U{205F}'
    || c == '\U{3000}'
  }

  predicate AllSpace(s: string) {
    forall i :: 0 <= i < |s| ==> IsSpace(s[i])
  }

  /** Neither end of `s` is white space. */
  predicate Trimmed(s: string) {
    s == [] || (!IsSpace(s[0]) && !IsSpace(s[|s| - 1]))
  }

  lemma AppendAssoc(a: string, b: string, c: string)
    ensures a + (b + c) == (a + b) + c
  {
  }

  /** Go's `strings.TrimSpace`: `s` with its white-space margins cut off,
      the leading margin first, then the trailing one. */
  function TrimSpace(s: string): (r: string)
    ensures Trimmed(r) && |r| <= |s|
    decreases |s|
  {
    if s != [] && IsSpace(s[0]) then TrimSpace(s[1..])
    else if s != [] && IsSpace(s[|s| - 1]) then TrimSpace(s[..|s| - 1])
    else s
  }

  /** Where the text `TrimSpace` keeps starts in its input. */
  lemma {:induction false} TrimSpaceOffset(s: string) returns (a: nat)
    ensures a + |TrimSpace(s)| <= |s| && TrimSpace(s) == s[a..a + |TrimSpace(s)|]
    ensures AllSpace(s[..a]) && AllSpace(s[a + |TrimSpace(s)|..])
    decreases |s|
  {
    var r := TrimSpace(s);
    if s != [] && IsSpace(s[0]) {
      assert r == TrimSpace(s[1..]);
      var b := TrimSpaceOffset(s[1..]);
      CutsFront(s, b, r);
      a := b + 1;
    } else if s != [] && IsSpace(s[|s| - 1]) {
      assert r == TrimSpace(s[..|s| - 1]);
      a := TrimSpaceOffset(s[..|s| - 1]);
      CutsBack(s, a, r);
    } else {
      assert r == s;
      CutsNothing(s);
      a := 0;
    }
  }

  lemma CutsNothing(s: string)
    ensures s == s[0..0 + |s|] && AllSpace(s[..0]) && AllSpace(s[0 + |s|..])
  {
    assert s[..0] == [] && s[|s|..] == [];
  }

  lemma CutsFront(s: string, a: nat, r: string)
    requires s != [] && IsSpace(s[0])
    requires a + |r| <= |s| - 1 && r == s[1..][a..a + |r|]
    requires AllSpace(s[1..][..a]) && AllSpace(s[1..][a + |r|..])
    ensures r == s[a + 1..a + 1 + |r|]
    ensures AllSpace(s[..a + 1]) && AllSpace(s[a + 1 + |r|..])
  {
    assert s[..a + 1] == [s[0]] + s[1..][..a];
    assert s[a + 1 + |r|..] == s[1..][a + |r|..];
  }

  lemma CutsBack(s: string, a: nat, r: string)
    requires s != [] && IsSpace(s[|s| - 1])
    requires a + |r| <= |s| - 1 && r == s[..|s| - 1][a..a + |r|]
    requires AllSpace(s[..|s| - 1][..a]) && AllSpace(s[..|s| - 1][a + |r|..])
    ensures r == s[a..a + |r|]
    ensures AllSpace(s[..a]) && AllSpace(s[a + |r|..])
  {
    assert s[..a] == s[..|s| - 1][..a];
    assert s[a + |r|..] == s[..|s| - 1][a + |r|..] + [s[|s| - 1]];
  }

  /** TrimSpace removes exactly white-space margins around a trimmed text. */
  lemma {:induction false} TrimSpaceMargins(w1: string, x: string, w2: string)
    requires AllSpace(w1) && AllSpace(w2) && Trimmed(x)
    ensures TrimSpace(w1 + x + w2) == x
    decreases |w1|
  {
    var s := w1 + x + w2;
    if w1 == [] {
      assert s == x + w2;
      TrimSpaceBackMargin(x, w2);
    } else {
      assert s[0] == w1[0];
      DropFirst(w1, x + w2);
      AppendAssoc(w1, x, w2);
      AppendAssoc(w1[1..], x, w2);
      TrimSpaceMargins(w1[1..], x, w2);
    }
  }

  /** The trailing half of `TrimSpaceMargins`. */
  lemma {:induction false} TrimSpaceBackMargin(x: string, w2: string)
    requires AllSpace(w2) && Trimmed(x)
    ensures TrimSpace(x + w2) == x
    decreases |w2|
  {
    var s := x + w2;
    if w2 == [] {
      assert s == x;
    } else if x == [] {
      assert s == w2 && s[0] == w2[0];
      TrimSpaceBackMargin([], w2[1..]);
      assert [] + w2[1..] == s[1..];
    } else {
      assert s[0] == x[0] && s[|s| - 1] == w2[|w2| - 1];
      assert s[..|s| - 1] == x + w2[..|w2| - 1];
      TrimSpaceBackMargin(x, w2[..|w2| - 1]);
    }
  }

  /** TrimSpace is idempotent. */
  lemma TrimSpaceIdempotent(s: string)
    ensures TrimSpace(TrimSpace(s)) == TrimSpace(s)
  {
    var t := TrimSpace(s);
    TrimSpaceMargins([], t, []);
    assert [] + t + [] == t;
  }

  predicate HasPrefix(s: string, p: string) {
    |p| <= |s| && s[..|p|] == p
  }

  predicate HasSuffix(s: string, p: string) {
    |p| <= |s| && s[|s| - |p|..] == p
  }

  /** `p` occurs in `s` starting at index `i`. */
  predicate OccursAt(s: string, p: string, i: int) {
    0 <= i && i + |p| <= |s| && s[i..i + |p|] == p
  }

  /** Go's `strings.Contains`. */
  predicate Contains(s: string, p: string) {
    exists i :: 0 <= i <= |s| - |p| && OccursAt(s, p, i)
  }

  /** An occurrence in a suffix is an occurrence in the whole string. */
  lemma ContainsInSuffix(s: string, d: nat, p: string)
    requires d <= |s|
    requires Contains(s[d..], p)
    ensures Contains(s, p)
  {
    var i :| 0 <= i <= |s[d..]| - |p| && OccursAt(s[d..], p, i);
    assert s[d + i..d + i + |p|] == s[d..][i..i + |p|];
    assert OccursAt(s, p, d + i);
  }

  /** A string that does not hold the first character of `p` cannot hold `p`,
      not even when all but the last character of `p` is appended to it. */
  lemma FirstCharAbsent(a: string, p: string)
    requires p != []
    requires forall i :: 0 <= i < |a| ==> a[i] != p[0]
    ensures !Contains(a + p[..|p| - 1], p)
  {
    var s := a + p[..|p| - 1];
    forall i | 0 <= i <= |s| - |p| ensures !OccursAt(s, p, i) {
      assert s[i..i + |p|][0] == s[i] == a[i];
    }
  }

  /** A string without the first character of `p` does not contain `p`. */
  lemma AbsentFirstChar(s: string, p: string)
    requires p != [] && p[0] !in s
    ensures !Contains(s, p)
  {
    forall i | 0 <= i <= |s| - |p| ensures !OccursAt(s, p, i) {
      assert s[i..i + |p|][0] == s[i];
      assert s[i] in s;
    }
  }

  /** Go's `strings.Split` with a non-empty separator: cut `s` at every
      non-overlapping occurrence of `sep`, scanning left to right. */
  function Split(s: string, sep: string): (parts: seq<string>)
    requires sep != []
    ensures |parts| >= 1
    ensures HasPrefix(s, parts[0])
    decreases |s|
  {
    if |s| < |sep| then [s]
    else if s[..|sep|] == sep then [""] + Split(s[|sep|..], sep)
    else
      var rest := Split(s[1..], sep);
      [[s[0]] + rest[0]] + rest[1..]
  }

  /** Go's `strings.Join`. */
  function Join(parts: seq<string>, sep: string): string
    requires |parts| >= 1
    decreases |parts|
  {
    if |parts| == 1 then parts[0] else parts[0] + sep + Join(parts[1..], sep)
  }

  lemma JoinConsChar(c: char, parts: seq<string>, sep: string)
    requires |parts| >= 1
    ensures Join([[c] + parts[0]] + parts[1..], sep) == [c] + Join(parts, sep)
  {
    var q := [[c] + parts[0]] + parts[1..];
    if |parts| > 1 {
      assert q[1..] == parts[1..];
    }
  }

  lemma JoinConsEmpty(parts: seq<string>, sep: string)
    requires |parts| >= 1
    ensures Join([""] + parts, sep) == sep + Join(parts, sep)
  {
    assert ([""] + parts)[1..] == parts;
  }

  /** Joining the pieces of a split with the same separator gives back the
      original string. */
  lemma {:induction false} JoinSplit(s: string, sep: string)
    requires sep != []
    ensures Join(Split(s, sep), sep) == s
    decreases |s|
  {
    if |s| < |sep| {
    } else if s[..|sep|] == sep {
      JoinSplit(s[|sep|..], sep);
      JoinConsEmpty(Split(s[|sep|..], sep), sep);
      assert s == sep + s[|sep|..];
    } else {
      var rest := Split(s[1..], sep);
      JoinSplit(s[1..], sep);
      JoinConsChar(s[0], rest, sep);
      assert s == [s[0]] + s[1..];
    }
  }

  /** No piece of a split holds the separator. */
  lemma {:induction false} SplitPartsFree(s: string, sep: string)
    requires sep != []
    ensures forall k :: 0 <= k < |Split(s, sep)| ==> !Contains(Split(s, sep)[k], sep)
    decreases |s|
  {
    var parts := Split(s, sep);
    if |s| < |sep| {
      forall i | OccursAt(s, sep, i) ensures false { }
    } else if s[..|sep|] == sep {
      SplitPartsFree(s[|sep|..], sep);
      var rest := Split(s[|sep|..], sep);
      assert parts == [""] + rest;
      forall k | 0 <= k < |parts| ensures !Contains(parts[k], sep) {
        if k == 0 {
          forall i | OccursAt(parts[k], sep, i) ensures false { }
        } else {
          assert parts[k] == rest[k - 1];
        }
      }
    } else {
      SplitPartsFree(s[1..], sep);
      var rest := Split(s[1..], sep);
      var first := [s[0]] + rest[0];
      assert parts == [first] + rest[1..];
      forall k | 0 <= k < |parts| ensures !Contains(parts[k], sep) {
        if k == 0 {
          forall i | OccursAt(first, sep, i) ensures false {
            if i != 0 {
              assert first[i..i + |sep|] == rest[0][i - 1..i - 1 + |sep|];
              assert OccursAt(rest[0], sep, i - 1);
            }
          }
        } else {
          assert parts[k] == rest[k];
        }
      }
    }
  }

  lemma DropFirst(a: string, b: string)
    requires a != []
    ensures (a + b)[1..] == a[1..] + b
  {
  }

  /** When the first occurrence of `sep` in `a + sep + b` is the one after
      `a`, the split starts with `a` and continues with the split of `b`. */
  lemma {:induction false} SplitAtFirst(a: string, sep: string, b: string)
    requires sep != []
    requires !Contains(a + sep[..|sep| - 1], sep)
    ensures Split(a + sep + b, sep) == [a] + Split(b, sep)
    decreases |a|
  {
    var s := a + sep + b;
    if a == [] {
      assert s[..|sep|] == sep;
      assert s[|sep|..] == b;
    } else {
      if s[..|sep|] == sep {
        assert (a + sep[..|sep| - 1])[0..|sep|] == sep;
        assert OccursAt(a + sep[..|sep| - 1], sep, 0);
      }
      var a' := a[1..];
      var t, t' := a + sep[..|sep| - 1], a' + sep[..|sep| - 1];
      assert t' == t[1..];
      forall i | OccursAt(t', sep, i) ensures OccursAt(t, sep, i + 1) {
        assert t[i + 1..i + 1 + |sep|] == t'[i..i + |sep|];
      }
      DropFirst(a, sep + b);
      AppendAssoc(a, sep, b);
      AppendAssoc(a', sep, b);
      SplitAtFirst(a', sep, b);
      assert s[0] == a[0] && a == [a[0]] + a';
    }
  }

  /** A string that does not hold the separator splits into itself alone. */
  lemma {:induction false} SplitAbsent(s: string, sep: string)
    requires sep != []
    requires !Contains(s, sep)
    ensures Split(s, sep) == [s]
    decreases |s|
  {
    if |s| >= |sep| {
      assert !OccursAt(s, sep, 0);
      forall i | OccursAt(s[1..], sep, i) ensures OccursAt(s, sep, i + 1) {
        assert s[i + 1..i + 1 + |sep|] == s[1..][i..i + |sep|];
      }
      SplitAbsent(s[1..], sep);
      assert s == [s[0]] + s[1..];
    }
  }

  /** With a one-character separator that no piece holds, Split undoes Join. */
  lemma {:induction false} SplitJoin(parts: seq<string>, c: char)
    requires |parts| >= 1
    requires forall k, i :: 0 <= k < |parts| && 0 <= i < |parts[k]| ==> parts[k][i] != c
    ensures Split(Join(parts, [c]), [c]) == parts
    decreases |parts|
  {
    FirstCharAbsent(parts[0], [c]);
    assert [c][..0] == [];
    assert parts[0] + [c][..0] == parts[0];
    if |parts| == 1 {
      SplitAbsent(parts[0], [c]);
    } else {
      SplitJoin(parts[1..], c);
      SplitAtFirst(parts[0], [c], Join(parts[1..], [c]));
      assert parts == [parts[0]] + parts[1..];
    }
  }

  /** Go's `strings.ReplaceAll` with a non-empty pattern: every
      non-overlapping occurrence of `p`, scanning left to right, becomes `r`. */
  function ReplaceAll(s: string, p: string, r: string): string
    requires p != []
    decreases |s|
  {
    if |s| < |p| then s
    else if s[..|p|] == p then r + ReplaceAll(s[|p|..], p, r)
    else [s[0]] + ReplaceAll(s[1..], p, r)
  }

  /** ReplaceAll agrees with splitting at the pattern and joining with the
      replacement. */
  lemma {:induction false} ReplaceAllIsJoinSplit(s: string, p: string, r: string)
    requires p != []
    ensures ReplaceAll(s, p, r) == Join(Split(s, p), r)
    decreases |s|
  {
    if |s| < |p| {
    } else if s[..|p|] == p {
      ReplaceAllIsJoinSplit(s[|p|..], p, r);
      JoinConsEmpty(Split(s[|p|..], p), r);
    } else {
      ReplaceAllIsJoinSplit(s[1..], p, r);
      JoinConsChar(s[0], Split(s[1..], p), r);
    }
  }

  /** A string that does not hold the pattern is left as it is. */
  lemma ReplaceAllAbsent(s: string, p: string, r: string)
    requires p != []
    requires !Contains(s, p)
    ensures ReplaceAll(s, p, r) == s
  {
    SplitAbsent(s, p);
    ReplaceAllIsJoinSplit(s, p, r);
  }

  /** Text free of the pattern's first character passes through unchanged. */
  lemma {:induction false} ReplaceAllSkip(a: string, b: string, p: string, r: string)
    requires p != []
    requires forall i :: 0 <= i < |a| ==> a[i] != p[0]
    ensures ReplaceAll(a + b, p, r) == a + ReplaceAll(b, p, r)
    decreases |a|
  {
    if a != [] {
      var s := a + b;
      assert s[1..] == a[1..] + b;
      ReplaceAllSkip(a[1..], b, p, r);
      assert a == [a[0]] + a[1..];
      if |s| >= |p| {
        assert s[..|p|][0] == s[0] == a[0];
        assert ReplaceAll(s, p, r) == [s[0]] + ReplaceAll(s[1..], p, r);
      } else {
        assert ReplaceAll(b, p, r) == b;
      }
    } else {
      assert a + b == b;
    }
  }

  /** An occurrence of the pattern at the front is replaced. */
  lemma ReplaceAllHere(p: string, b: string, r: string)
    requires p != []
    ensures ReplaceAll(p + b, p, r) == r + ReplaceAll(b, p, r)
  {
    assert (p + b)[..|p|] == p;
    assert (p + b)[|p|..] == b;
  }
}
