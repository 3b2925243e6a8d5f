/** The Python `str` operations that the post-processing code relies on:
    `strip()`, `startswith`, `replace(p, "")`, `split(sep)`, `sep.join`,
    `lower()` and the separator-less `split()` that counts words.
    A Python `str` is a sequence of code points; a Dafny `string` is a
    sequence of Unicode scalar values. */
module PyText {

  /** Python's `str.isspace()` for a single code point: the characters that
      `strip()` removes and that `split()` splits on. */
  predicate IsSpace(c: char) {
    c == ' ' || '\t' <= c <= '\r' || '\U{1C}' <= c <= '\U{1F}' || c == '\U{85}' || c == '\U{A0}'
    || c == '\U{1680}' || '\U{2000}' <= c <= '\U{200A}' || c == '\U{2028}' || c == '\U{2029}'
    || c == '\U{202F}' || c == '\U{205F}' || c == '\U{3000}'
  }

  predicate AllSpace(s: string) {
    forall i :: 0 <= i < |s| ==> IsSpace(s[i])
  }

  /** Neither end of `s` is whitespace: what `strip()` guarantees. */
  predicate IsStripped(s: string) {
    s == [] || (!IsSpace(s[0]) && !IsSpace(s[|s| - 1]))
  }

  /** The length of the whitespace run at the start of `s`. */
  function LeadingSpaces(s: string): (k: nat)
    ensures k <= |s|
    ensures AllSpace(s[..k])
    ensures k == |s| || !IsSpace(s[k])
    decreases |s|
  {
    if |s| > 0 && IsSpace(s[0]) then
      var k := 1 + LeadingSpaces(s[1..]);
      assert forall i :: 1 <= i < k ==> s[..k][i] == s[1..][..k - 1][i - 1];
      k
    else 0
  }

  /** The length of the whitespace run at the end of `s`. */
  function TrailingSpaces(s: string): (k: nat)
    ensures k <= |s|
    ensures AllSpace(s[|s| - k..])
    ensures k == |s| || !IsSpace(s[|s| - 1 - k])
    decreases |s|
  {
    if |s| > 0 && IsSpace(s[|s| - 1]) then
      var init := s[..|s| - 1];
      var j := TrailingSpaces(init);
      assert s[|s| - (j + 1)..] == init[|init| - j..] + [s[|s| - 1]];
      AllSpaceSnoc(init[|init| - j..], s[|s| - 1]);
      assert j + 1 < |s| ==> s[|s| - 1 - (j + 1)] == init[|init| - 1 - j];
      j + 1
    else 0
  }

  /** A whitespace run stays one when another whitespace character follows. */
  lemma AllSpaceSnoc(a: string, c: char)
    requires AllSpace(a) && IsSpace(c)
    ensures AllSpace(a + [c])
  {
    assert forall i :: 0 <= i < |a| ==> (a + [c])[i] == a[i];
  }

  /** Python's `s.strip()`: `s` is whitespace, then the stripped text, then whitespace. */
  function Strip(s: string): (r: string)
    ensures IsStripped(r)
    ensures LeadingSpaces(s) + |r| <= |s|
    ensures r == s[LeadingSpaces(s)..LeadingSpaces(s) + |r|]
    ensures AllSpace(s[..LeadingSpaces(s)]) && AllSpace(s[LeadingSpaces(s) + |r|..])
  {
    var l := LeadingSpaces(s);
    var k := TrailingSpaces(s[l..]);
    StripShape(s, l, k);
    s[l..|s| - k]
  }

  /** What is left between a leading and a trailing whitespace run, each as
      long as it can be, has no whitespace at either end. */
  lemma StripShape(s: string, l: nat, k: nat)
    requires l <= |s| && (l == |s| || !IsSpace(s[l]))
    requires k <= |s| - l && AllSpace(s[l..][|s| - l - k..])
    requires k == |s| - l || !IsSpace(s[l..][|s| - l - 1 - k])
    ensures IsStripped(s[l..|s| - k])
    ensures AllSpace(s[|s| - k..])
  {
    var t := s[l..];
    assert s[|s| - k..] == t[|t| - k..];
    var r := s[l..|s| - k];
    if |r| > 0 {
      assert r[0] == s[l];
      assert r[|r| - 1] == t[|t| - 1 - k];
    }
  }

  /** `strip()` is determined by its two guarantees: whatever whitespace
      surrounds a stripped text, stripping gives that text back. */
  lemma StripUnique(a: string, m: string, b: string)
    requires AllSpace(a) && AllSpace(b) && IsStripped(m)
    ensures Strip(a + m + b) == m
  {
    var s := a + m + b;
    if m == [] {
      assert s[..|s|] == s;
      assert forall i :: 0 <= i < |s| ==> s[i] == (if i < |a| then a[i] else b[i - |a|]);
      LeadingSpacesIs(s, |s|);
    } else {
      assert s[..|a|] == a && s[|a|] == m[0];
      LeadingSpacesIs(s, |a|);
      var t := s[|a|..];
      assert t == m + b;
      assert t[|t| - |b|..] == b && t[|t| - 1 - |b|] == m[|m| - 1];
      TrailingSpacesIs(t, |b|);
      assert s[|a|..|s| - |b|] == m;
    }
  }

  /** A whitespace run that ends where whitespace ends is the leading run. */
  lemma {:induction false} LeadingSpacesIs(s: string, n: nat)
    requires n <= |s| && AllSpace(s[..n]) && (n == |s| || !IsSpace(s[n]))
    ensures LeadingSpaces(s) == n
    decreases n
  {
    if n > 0 {
      assert s[..n][0] == s[0];
      var run, tail := s[..n], s[1..][..n - 1];
      assert forall i :: 0 <= i < |tail| ==> tail[i] == run[i + 1];
      assert n < |s| ==> s[1..][n - 1] == s[n];
      LeadingSpacesIs(s[1..], n - 1);
    }
  }

  /** A whitespace run that starts where whitespace starts is the trailing run. */
  lemma {:induction false} TrailingSpacesIs(s: string, n: nat)
    requires n <= |s| && AllSpace(s[|s| - n..]) && (n == |s| || !IsSpace(s[|s| - 1 - n]))
    ensures TrailingSpaces(s) == n
    decreases n
  {
    if n > 0 {
      var init := s[..|s| - 1];
      assert s[|s| - n..][n - 1] == s[|s| - 1];
      var run, tail := s[|s| - n..], init[|init| - (n - 1)..];
      assert forall i :: 0 <= i < |tail| ==> tail[i] == run[i];
      assert n < |s| ==> init[|init| - 1 - (n - 1)] == s[|s| - 1 - n];
      TrailingSpacesIs(init, n - 1);
    }
  }

  predicate StartsWith(s: string, p: string) {
    |p| <= |s| && s[..|p|] == p
  }

  /** `p` occurs in `s` starting at index `i`. */
  predicate OccursAt(s: string, p: string, i: nat) {
    i + |p| <= |s| && s[i..i + |p|] == p
  }

  /** Python's `p in s`. */
  predicate Contains(s: string, p: string) {
    exists i: nat | i <= |s| :: OccursAt(s, p, i)
  }

  /** An occurrence inside a slice of a string is an occurrence in the whole. */
  lemma ContainsSlice(s: string, i: nat, j: nat, p: string)
    requires i <= j <= |s| && Contains(s[i..j], p)
    ensures Contains(s, p)
  {
    var m := s[i..j];
    var k: nat :| k <= |m| && OccursAt(m, p, k);
    assert forall t :: k <= t < k + |p| ==> m[t] == s[i + t];
    assert s[i + k..i + k + |p|] == m[k..k + |p|];
    assert OccursAt(s, p, i + k);
  }

  /** Stripping cannot create an occurrence of anything. */
  lemma ContainsStrip(s: string, p: string)
    ensures Contains(Strip(s), p) ==> Contains(s, p)
  {
    if Contains(Strip(s), p) {
      ContainsSlice(s, LeadingSpaces(s), LeadingSpaces(s) + |Strip(s)|, p);
    }
  }

  /** Away from index 0, the occurrences in `s` are those in `s[1..]`, shifted. */
  lemma ContainsTail(s: string, p: string)
    requires |s| > 0 && |p| > 0 && !OccursAt(s, p, 0)
    ensures Contains(s, p) <==> Contains(s[1..], p)
  {
    if Contains(s, p) {
      var i: nat :| i <= |s| && OccursAt(s, p, i);
      assert i >= 1;
      assert s[1..][i - 1..i - 1 + |p|] == s[i..i + |p|];
      assert OccursAt(s[1..], p, i - 1);
    }
    if Contains(s[1..], p) {
      var i: nat :| i <= |s[1..]| && OccursAt(s[1..], p, i);
      assert s[1..][i..i + |p|] == s[i + 1..i + 1 + |p|];
      assert OccursAt(s, p, i + 1);
    }
  }

  /** Python's `s.replace(p, "")`: delete the occurrences of `p` found scanning
      from the left, each search resuming after the text just deleted. */
  function RemoveAll(s: string, p: string): (r: string)
    requires |p| > 0
    ensures |r| <= |s|
    decreases |s|
  {
    if s == [] then []
    else if StartsWith(s, p) then RemoveAll(s[|p|..], p)
    else [s[0]] + RemoveAll(s[1..], p)
  }

  /** Text in front of which the pattern cannot begin passes through unchanged. */
  lemma {:induction false} RemoveAllPrefixFree(x: string, y: string, p: string)
    requires |p| > 0 && p[0] !in x
    ensures RemoveAll(x + y, p) == x + RemoveAll(y, p)
    decreases |x|
  {
    if x != [] {
      var s := x + y;
      assert x[0] in x;
      assert s[0] == x[0] && x[0] != p[0];
      assert !StartsWith(s, p) by {
        if |p| <= |s| {
          assert s[..|p|][0] == s[0];
        }
      }
      assert x == [x[0]] + x[1..];
      assert (x + y)[1..] == x[1..] + y;
      assert RemoveAll(x + y, p) == [x[0]] + RemoveAll(x[1..] + y, p);
      RemoveAllPrefixFree(x[1..], y, p);
      assert [x[0]] + (x[1..] + RemoveAll(y, p)) == x + RemoveAll(y, p);
    } else {
      assert x + y == y;
    }
  }

  /** Removing the three-backtick fence leaves no three-backtick fence behind:
      the backticks left over from a run are followed by a character that is
      not a backtick. */
  lemma {:induction false} RemoveAllFenceGone(s: string)
    ensures !Contains(RemoveAll(s, "```"), "```")
    decreases |s|
  {
    var f := "```";
    if s == [] {
    } else if StartsWith(s, f) {
      RemoveAllFenceGone(s[3..]);
    } else {
      var rest := RemoveAll(s[1..], f);
      RemoveAllFenceGone(s[1..]);
      var r := [s[0]] + rest;
      assert RemoveAll(s, f) == r;
      assert !OccursAt(r, f, 0) by {
        if s[0] == '`' && |s| > 1 {
          if s[1] != '`' {
            RemoveAllNoPatternStart(s[1..], f);
            assert r[1] == s[1];
          } else if |s| == 2 {
            assert s[2..] == [];
            assert rest == ['`'];
          } else {
            assert s[2] != '`' by {
              assert s[..3] != f;
            }
            assert !StartsWith(s[1..], f) by {
              if |s| >= 4 {
                assert s[1..][..3][1] == s[2];
              }
            }
            assert s[1..][1..] == s[2..];
            assert rest == ['`'] + RemoveAll(s[2..], f);
            RemoveAllNoPatternStart(s[2..], f);
            assert r[2] == s[2];
          }
        }
      }
      forall i: nat | 1 <= i <= |r|
        ensures !OccursAt(r, f, i)
      {
        if OccursAt(r, f, i) {
          assert rest[i - 1..i - 1 + 3] == r[i..i + 3];
          assert OccursAt(rest, f, i - 1);
        }
      }
    }
  }

  /** Where the pattern cannot begin, the first character is kept. */
  lemma RemoveAllNoPatternStart(s: string, p: string)
    requires |p| > 0 && |s| > 0 && s[0] != p[0]
    ensures RemoveAll(s, p) == [s[0]] + RemoveAll(s[1..], p)
  {
    if |p| <= |s| {
      assert s[..|p|][0] == s[0];
    }
  }

  /** Python's `s.split(sep)` with an explicit separator: the pieces between
      the occurrences of `sep` found scanning from the left; always at least one. */
  function Split(s: string, sep: string): (parts: seq<string>)
    requires |sep| > 0
    ensures |parts| >= 1
    decreases |s|
  {
    if StartsWith(s, sep) then [""] + Split(s[|sep|..], sep)
    else if s == [] then [""]
    else
      var rest := Split(s[1..], sep);
      [[s[0]] + rest[0]] + rest[1..]
  }

  /** Python's `sep.join(parts)`. */
  function Join(sep: string, parts: seq<string>): string
    decreases |parts|
  {
    if |parts| == 0 then ""
    else if |parts| == 1 then parts[0]
    else parts[0] + sep + Join(sep, parts[1..])
  }

  lemma JoinConsChar(sep: string, c: char, parts: seq<string>)
    requires |parts| >= 1
    ensures Join(sep, [[c] + parts[0]] + parts[1..]) == [c] + Join(sep, parts)
  {
    var q := [[c] + parts[0]] + parts[1..];
    assert q[1..] == parts[1..];
  }

  lemma JoinEmptyFirst(sep: string, parts: seq<string>)
    requires |parts| >= 1
    ensures Join(sep, [""] + parts) == sep + Join(sep, parts)
  {
    var q := [""] + parts;
    assert q[1..] == parts;
  }

  /** Splitting and joining with the same separator gives the text back. */
  lemma {:induction false} JoinSplit(s: string, sep: string)
    requires |sep| > 0
    ensures Join(sep, Split(s, sep)) == s
    decreases |s|
  {
    if StartsWith(s, sep) {
      var rest := s[|sep|..];
      JoinSplit(rest, sep);
      JoinEmptyFirst(sep, Split(rest, sep));
      assert s == s[..|sep|] + rest;
    } else if s == [] {
    } else {
      JoinSplit(s[1..], sep);
      JoinConsChar(sep, s[0], Split(s[1..], sep));
      assert s == [s[0]] + s[1..];
    }
  }

  /** Deleting every occurrence of `p` is splitting at `p` and joining the
      pieces with nothing between them. */
  lemma {:induction false} RemoveAllIsJoinSplit(s: string, p: string)
    requires |p| > 0
    ensures RemoveAll(s, p) == Join("", Split(s, p))
    decreases |s|
  {
    if s == [] {
    } else if StartsWith(s, p) {
      RemoveAllIsJoinSplit(s[|p|..], p);
      JoinEmptyFirst("", Split(s[|p|..], p));
    } else {
      RemoveAllIsJoinSplit(s[1..], p);
      JoinConsChar("", s[0], Split(s[1..], p));
    }
  }

  /** `split(sep)` gives more than one piece exactly when `sep` occurs. */
  lemma {:induction false} SplitSingleIff(s: string, sep: string)
    requires |sep| > 0
    ensures |Split(s, sep)| == 1 <==> !Contains(s, sep)
    decreases |s|
  {
    if StartsWith(s, sep) {
      assert OccursAt(s, sep, 0);
    } else if s == [] {
      assert forall i: nat :: !OccursAt(s, sep, i);
    } else {
      SplitSingleIff(s[1..], sep);
      assert !OccursAt(s, sep, 0);
      ContainsTail(s, sep);
    }
  }

  /** A text in which the separator cannot begin is a single piece. */
  lemma {:induction false} SplitNoSeparator(s: string, sep: string)
    requires |sep| > 0 && sep[0] !in s
    ensures Split(s, sep) == [s]
    decreases |s|
  {
    if s != [] {
      assert s[0] in s;
      assert !StartsWith(s, sep) by {
        if |sep| <= |s| {
          assert s[..|sep|][0] == s[0];
        }
      }
      SplitNoSeparator(s[1..], sep);
      assert [s[0]] + s[1..] == s;
    }
  }

  /** The piece before the first separator comes off first. */
  lemma {:induction false} SplitFirst(k: string, sep: string, rest: string)
    requires |sep| > 0 && sep[0] !in k
    ensures Split(k + sep + rest, sep) == [k] + Split(rest, sep)
    decreases |k|
  {
    var s := k + sep + rest;
    if k == [] {
      assert s == sep + rest;
      assert s[..|sep|] == sep;
      assert s[|sep|..] == rest;
    } else {
      assert k[0] in k;
      assert s[0] == k[0];
      assert !StartsWith(s, sep) by {
        if |sep| <= |s| {
          assert s[..|sep|][0] == s[0];
        }
      }
      assert s[1..] == k[1..] + sep + rest;
      SplitFirst(k[1..], sep, rest);
      assert [k[0]] + k[1..] == k;
    }
  }

  /** The piece before the first separator comes off first, when no
      separator begins inside that piece. */
  lemma {:induction false} SplitFirstFree(k: string, sep: string, rest: string)
    requires |sep| > 0
    requires forall i :: 0 <= i < |k| ==> !OccursAt(k + sep + rest, sep, i)
    ensures Split(k + sep + rest, sep) == [k] + Split(rest, sep)
    decreases |k|
  {
    var s := k + sep + rest;
    if k == [] {
      assert s == sep + rest;
      assert s[..|sep|] == sep;
      assert s[|sep|..] == rest;
    } else {
      assert !StartsWith(s, sep) by {
        assert !OccursAt(s, sep, 0);
        if |sep| <= |s| {
          assert s[0..|sep|] == s[..|sep|];
        }
      }
      var t := k[1..] + sep + rest;
      assert s[1..] == t;
      forall i | 0 <= i < |k[1..]|
        ensures !OccursAt(t, sep, i)
      {
        assert !OccursAt(s, sep, i + 1);
        if i + |sep| <= |t| {
          assert s[i + 1..i + 1 + |sep|] == t[i..i + |sep|];
        }
      }
      SplitFirstFree(k[1..], sep, rest);
      assert [k[0]] + k[1..] == k;
    }
  }

  /** The piece before the first separator comes off first. No separator
      begins inside `k` exactly when `k` followed by all but the last
      character of the separator does not contain it. */
  lemma SplitAtFirst(k: string, sep: string, rest: string)
    requires |sep| > 0 && !Contains(k + sep[..|sep| - 1], sep)
    ensures Split(k + sep + rest, sep) == [k] + Split(rest, sep)
  {
    var s := k + sep + rest;
    var t := k + sep[..|sep| - 1];
    forall i | 0 <= i < |k|
      ensures !OccursAt(s, sep, i)
    {
      if OccursAt(s, sep, i) {
        assert s[i..i + |sep|] == t[i..i + |sep|];
        assert OccursAt(t, sep, i);
      }
    }
    SplitFirstFree(k, sep, rest);
  }

  /** A text that does not contain the separator is a single piece. */
  lemma SplitWhole(s: string, sep: string)
    requires |sep| > 0 && !Contains(s, sep)
    ensures Split(s, sep) == [s]
  {
    SplitSingleIff(s, sep);
    JoinSplit(s, sep);
  }

  /** Every `a` in `s` replaced by `b`. */
  function ReplaceChar(s: string, a: char, b: char): (r: string)
    ensures |r| == |s|
    ensures forall i :: 0 <= i < |s| ==> r[i] == (if s[i] == a then b else s[i])
  {
    seq(|s|, i requires 0 <= i < |s| => if s[i] == a then b else s[i])
  }

  /** Splitting on one character and joining with another replaces the first by the second. */
  lemma {:induction false} JoinSplitReplaces(s: string, a: char, b: char)
    ensures Join([b], Split(s, [a])) == ReplaceChar(s, a, b)
    decreases |s|
  {
    if s == [] {
    } else if s[0] == a {
      assert StartsWith(s, [a]);
      JoinSplitReplaces(s[1..], a, b);
      var parts := [""] + Split(s[1..], [a]);
      assert parts[1..] == Split(s[1..], [a]);
      assert ReplaceChar(s, a, b) == [b] + ReplaceChar(s[1..], a, b);
    } else {
      assert !StartsWith(s, [a]);
      JoinSplitReplaces(s[1..], a, b);
      JoinConsChar([b], s[0], Split(s[1..], [a]));
      assert ReplaceChar(s, a, b) == [s[0]] + ReplaceChar(s[1..], a, b);
    }
  }

  /** Python's `str.lower()` restricted to ASCII letters. */
  function LowerChar(c: char): char {
    if 'A' <= c <= 'Z' then (c as int + 32) as char else c
  }

  function Lower(s: string): (r: string)
    ensures |r| == |s|
    ensures forall i :: 0 <= i < |s| ==> r[i] == LowerChar(s[i])
  {
    seq(|s|, i requires 0 <= i < |s| => LowerChar(s[i]))
  }

  /** A word as the separator-less `split()` yields it: non-empty, no whitespace. */
  predicate IsWord(w: string) {
    |w| > 0 && forall j :: 0 <= j < |w| ==> !IsSpace(w[j])
  }

  /** The length of the run of non-whitespace at the start of `s`. */
  function WordLength(s: string): (k: nat)
    ensures k <= |s|
    ensures forall i :: 0 <= i < k ==> !IsSpace(s[i])
    ensures k == |s| || IsSpace(s[k])
    decreases |s|
  {
    if |s| > 0 && !IsSpace(s[0]) then 1 + WordLength(s[1..]) else 0
  }

  /** Python's `s.split()` with no argument: the maximal runs of non-whitespace. */
  function Words(s: string): (ws: seq<string>)
    ensures forall i :: 0 <= i < |ws| ==> IsWord(ws[i])
    decreases |s|
  {
    if s == [] then []
    else if IsSpace(s[0]) then Words(s[1..])
    else
      var k := WordLength(s);
      [s[..k]] + Words(s[k..])
  }

  /** A text has no words exactly when it is all whitespace. */
  lemma {:induction false} WordsEmptyIff(s: string)
    ensures Words(s) == [] <==> AllSpace(s)
    decreases |s|
  {
    if s != [] && IsSpace(s[0]) {
      WordsEmptyIff(s[1..]);
      assert AllSpace(s) <==> AllSpace(s[1..]) by {
        if AllSpace(s[1..]) {
          assert forall i :: 1 <= i < |s| ==> s[i] == s[1..][i - 1];
        }
      }
    }
  }

  /** A run of non-whitespace that ends the text or is followed by whitespace
      is the first word's length. */
  lemma WordLengthIs(s: string, k: nat)
    requires k <= |s| && (k == |s| || IsSpace(s[k]))
    requires forall i :: 0 <= i < k ==> !IsSpace(s[i])
    ensures WordLength(s) == k
  {
  }

  /** A single word is split into just itself. */
  lemma WordsOfWord(w: string)
    requires IsWord(w)
    ensures Words(w) == [w]
  {
    WordLengthIs(w, |w|);
    assert w[..|w|] == w && w[|w|..] == [];
  }

  /** A whitespace character ends the words before it: the words of
      `a + [c] + b` are the words of `a` followed by the words of `b`. */
  lemma {:induction false} WordsAtSpace(a: string, c: char, b: string)
    requires IsSpace(c)
    ensures Words(a + [c] + b) == Words(a) + Words(b)
    decreases |a|
  {
    var s := a + [c] + b;
    if a == [] {
      assert s[1..] == b;
    } else if IsSpace(a[0]) {
      assert s[1..] == a[1..] + [c] + b;
      WordsAtSpace(a[1..], c, b);
    } else {
      var k := WordLength(a);
      assert forall i :: 0 <= i < |a| ==> s[i] == a[i];
      assert k < |a| ==> s[k] == a[k];
      WordLengthIs(s, k);
      assert s[..k] == a[..k];
      assert s[k..] == a[k..] + [c] + b;
      WordsAtSpace(a[k..], c, b);
    }
  }

  /** Words joined by single spaces are split back into the same words. */
  lemma {:induction false} WordsOfJoin(ws: seq<string>)
    requires forall i :: 0 <= i < |ws| ==> IsWord(ws[i])
    ensures Words(Join(" ", ws)) == ws
    decreases |ws|
  {
    if |ws| == 1 {
      WordsOfWord(ws[0]);
    } else if |ws| > 1 {
      WordsOfWord(ws[0]);
      WordsOfJoin(ws[1..]);
      WordsAtSpace(ws[0], ' ', Join(" ", ws[1..]));
      assert [ws[0]] + ws[1..] == ws;
    }
  }
}
