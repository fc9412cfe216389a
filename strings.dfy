/** The JavaScript string operations the converters use, over sequences of
    characters: indexOf/lastIndexOf, split/join, global literal replacement,
    case-insensitive global removal, trim, toUpperCase and padStart. */
module Strings {

  // ---------------------------------------------------------------------------
  // Occurrences

  /** `p` occurs in `s` starting at index `i`. */
  predicate StartsAt(s: string, p: string, i: nat)
  {
    i + |p| <= |s| && s[i..i + |p|] == p
  }

  /** Concatenation regrouped. */
  lemma Regroup(a: string, b: string, c: string)
    ensures a + b + c == a + (b + c)
  {
  }

  predicate Contains(s: string, p: string)
  {
    exists i: nat | i <= |s| :: StartsAt(s, p, i)
  }

  /** `s.indexOf(p, from)`: the first occurrence at or after `from`, or -1. */
  function IndexOf(s: string, p: string, from: nat): (k: int)
    ensures k == -1 || (from <= k && StartsAt(s, p, k))
    ensures k == -1 ==> forall j: nat :: from <= j ==> !StartsAt(s, p, j)
    ensures k != -1 ==> forall j: nat :: from <= j < k ==> !StartsAt(s, p, j)
    decreases |s| - from
  {
    if from + |p| > |s| then -1
    else if StartsAt(s, p, from) then from
    else IndexOf(s, p, from + 1)
  }

  /** Downward scan from `k` for the last occurrence at or before `k`. */
  function LastIndexScan(s: string, p: string, k: nat): (r: int)
    ensures r >= -1 && (r >= 0 ==> r <= k && StartsAt(s, p, r))
    ensures forall j: nat :: r < j <= k ==> !StartsAt(s, p, j)
    decreases k
  {
    if StartsAt(s, p, k) then k else if k == 0 then -1 else LastIndexScan(s, p, k - 1)
  }

  /** `s.lastIndexOf(p, from)`: the last occurrence starting at or before
      `from`, or -1. */
  function LastIndexOf(s: string, p: string, from: nat): (k: int)
    ensures k >= -1 && (k >= 0 ==> k <= from && StartsAt(s, p, k))
    ensures forall j: nat :: k < j <= from ==> !StartsAt(s, p, j)
  {
    if |p| > |s| then -1
    else LastIndexScan(s, p, if from + |p| <= |s| then from else |s| - |p|)
  }

  /** A text lacking one of the characters of `p` does not contain `p`. */
  lemma MissingChar(s: string, p: string, c: char)
    requires c in p && c !in s
    ensures !Contains(s, p)
  {
    var k :| 0 <= k < |p| && p[k] == c;
    forall i: nat | i <= |s| ensures !StartsAt(s, p, i) {
      if i + |p| <= |s| {
        assert s[i..i + |p|][k] == s[i + k];
      }
    }
  }

  /** Neither part holds `p`, and `p` cannot straddle the joint: the whole
      does not hold `p`. */
  lemma NotContainsAppend(a: string, b: string, p: string)
    requires !Contains(a, p) && !Contains(b, p)
    requires a == [] || b == [] || a[|a| - 1] !in p || b[0] !in p
    ensures !Contains(a + b, p)
  {
    if b == [] {
      assert a + b == a;
    } else {
      forall i: nat | i <= |a + b| ensures !StartsAt(a + b, p, i) {
        if i >= |a| {
          assert !StartsAt(b, p, i - |a|);
        }
        NoStartAcross(a, b, p, i);
      }
    }
  }

  /** An occurrence of `p` in `a + b` lies in `a`, lies in `b`, or covers
      both sides of the joint. */
  lemma NoStartAcross(a: string, b: string, p: string, i: nat)
    requires !Contains(a, p)
    requires a == [] || a[|a| - 1] !in p || (b != [] && b[0] !in p)
    requires i < |a| || !StartsAt(b, p, i - |a|)
    ensures !StartsAt(a + b, p, i)
  {
    var s := a + b;
    if i + |p| <= |s| {
      var w := s[i..i + |p|];
      if i + |p| <= |a| {
        assert w == a[i..i + |p|];
        assert !StartsAt(a, p, i);
      } else if i >= |a| {
        assert w == b[i - |a|..i - |a| + |p|];
      } else if a[|a| - 1] !in p {
        assert w[|a| - 1 - i] == a[|a| - 1];
      } else {
        assert w[|a| - i] == b[0];
      }
    }
  }

  /** The first `p` of `a + b` is the first `p` of `b`, at `k`, when `a`
      holds none and none straddles the joint. */
  lemma IndexOfAfter(a: string, b: string, p: string, k: nat)
    requires !Contains(a, p)
    requires a == [] || a[|a| - 1] !in p
    requires StartsAt(b, p, k)
    requires forall j: nat :: j < k ==> !StartsAt(b, p, j)
    ensures IndexOf(a + b, p, 0) == |a| + k
  {
    var s := a + b;
    assert StartsAt(s, p, |a| + k) by {
      assert s[|a| + k..|a| + k + |p|] == b[k..k + |p|];
    }
    forall j: nat | j < |a| + k ensures !StartsAt(s, p, j) {
      NoStartAcross(a, b, p, j);
    }
  }

  /** The first `p` of `h + w + rest`, with `rest` starting with `p` and
      `p` starting with a visible character, is just after the whitespace. */
  lemma FirstAfterBlank(h: string, w: string, rest: string, p: string)
    requires p != [] && !IsSpace(p[0])
    requires !Contains(h, p) && h != [] && h[|h| - 1] !in p
    requires IsBlank(w) && StartsAt(rest, p, 0)
    ensures IndexOf(h + (w + rest), p, 0) == |h| + |w|
  {
    StartsAtShift(w, rest, p);
    BlankNoStart(w, rest, p);
    IndexOfAfter(h, w + rest, p, |w|);
  }

  /** A text starts with its own prefix. */
  lemma StartsWithPrefix(p: string, rest: string)
    ensures StartsAt(p + rest, p, 0)
  {
    assert (p + rest)[0..|p|] == p;
  }

  /** An occurrence at the front of `rest` is one at `|w|` in `w + rest`. */
  lemma StartsAtShift(w: string, rest: string, p: string)
    requires StartsAt(rest, p, 0)
    ensures StartsAt(w + rest, p, |w|)
  {
    var b := w + rest;
    assert b[|w|..|w| + |p|] == rest[0..|p|];
  }

  /** A `p` that starts with a visible character starts nowhere in leading
      whitespace. */
  lemma BlankNoStart(w: string, rest: string, p: string)
    requires p != [] && !IsSpace(p[0])
    requires IsBlank(w)
    ensures forall j: nat :: j < |w| ==> !StartsAt(w + rest, p, j)
  {
    var b := w + rest;
    forall j: nat | j < |w| ensures !StartsAt(b, p, j) {
      if j + |p| <= |b| {
        assert b[j..j + |p|][0] == w[j];
      }
    }
  }

  /** A framed text `h w1 m w2 c w3 e w4 s` regrouped around each of its
      landmarks, and the part between `m` and `e`. */
  lemma FrameShapes(h: string, w1: string, m: string, w2: string, c: string, w3: string, e: string, w4: string, s: string)
    ensures var page := (h + w1 + m + w2) + c + (w3 + e + w4 + s);
      && page == h + (w1 + (m + w2 + c + w3 + e + w4 + s))
      && page == (h + w1 + m + w2 + c + w3 + e + w4) + s
      && page == (h + w1 + m + w2 + c + w3) + e + w4 + s
      && page[|h| + |w1| + |m|..|page| - |s| - |w4| - |e|] == w2 + c + w3
  {
  }

  /** The last `p` at or before `from` is the one at `k` when none starts
      after it. */
  lemma LastIndexAt(s: string, p: string, k: nat, from: nat)
    requires k <= from && StartsAt(s, p, k)
    requires forall j: nat :: k < j <= from ==> !StartsAt(s, p, j)
    ensures LastIndexOf(s, p, from) == k
  {
  }

  /** The pieces written one after the other. */
  function Concat(parts: seq<string>): string
  {
    if parts == [] then "" else parts[0] + Concat(parts[1..])
  }

  /** Pieces that hold no `p` and each end on a character of `ends`, which
      `p` does not use, make a text that holds no `p` and ends outside `p`. */
  lemma {:induction false} ConcatNotContains(parts: seq<string>, p: string, ends: string)
    requires p != []
    requires forall i :: 0 <= i < |parts| ==> !Contains(parts[i], p)
    requires forall i :: 0 <= i < |parts| ==> parts[i] != [] && parts[i][|parts[i]| - 1] in ends
    requires forall x :: x in ends ==> x !in p
    ensures !Contains(Concat(parts), p)
    ensures parts != [] ==> Concat(parts) != [] && Concat(parts)[|Concat(parts)| - 1] in ends
    decreases |parts|
  {
    if parts != [] {
      ConcatNotContains(parts[1..], p, ends);
      NotContainsAppend(parts[0], Concat(parts[1..]), p);
    }
  }

  // ---------------------------------------------------------------------------
  // split / join / replace

  /** `s.split(sep)` for a non-empty literal separator: the pieces between
      the leftmost non-overlapping occurrences of `sep`. */
  function Split(s: string, sep: string): (parts: seq<string>)
    requires sep != []
    ensures |parts| >= 1
    decreases |s|
  {
    if StartsAt(s, sep, 0) then [""] + Split(s[|sep|..], sep)
    else if s == [] then [""]
    else
      var rest := Split(s[1..], sep);
      [[s[0]] + rest[0]] + rest[1..]
  }

  /** `parts.join(sep)`. */
  function Join(parts: seq<string>, sep: string): string
  {
    if parts == [] then ""
    else if |parts| == 1 then parts[0]
    else parts[0] + sep + Join(parts[1..], sep)
  }

  /** Joining a piece onto the front of a non-empty list. */
  lemma JoinCons(x: string, parts: seq<string>, sep: string)
    requires parts != []
    ensures Join([x] + parts, sep) == x + sep + Join(parts, sep)
  {
    assert ([x] + parts)[1..] == parts;
  }

  /** Extending the first piece extends the joined string. */
  lemma {:induction false} JoinHead(c: char, parts: seq<string>, sep: string)
    requires parts != []
    ensures Join([[c] + parts[0]] + parts[1..], sep) == [c] + Join(parts, sep)
  {
    var q := [[c] + parts[0]] + parts[1..];
    if |parts| == 1 {
      assert q == [[c] + parts[0]];
    } else {
      assert q[1..] == parts[1..];
    }
  }

  /** Splitting and joining with the same separator gives the string back. */
  lemma {:induction false} SplitJoin(s: string, sep: string)
    requires sep != []
    ensures Join(Split(s, sep), sep) == s
    decreases |s|
  {
    if StartsAt(s, sep, 0) {
      SplitJoin(s[|sep|..], sep);
      JoinCons("", Split(s[|sep|..], sep), sep);
      assert s == sep + s[|sep|..];
    } else if s != [] {
      SplitJoin(s[1..], sep);
      JoinHead(s[0], Split(s[1..], sep), sep);
      assert s == [s[0]] + s[1..];
    }
  }

  /** An occurrence one character in is an occurrence in the tail. */
  lemma StartsAtTail(s: string, p: string, i: nat)
    requires s != []
    ensures StartsAt(s, p, i + 1) <==> StartsAt(s[1..], p, i)
  {
    if i + 1 + |p| <= |s| {
      assert s[1..][i..i + |p|] == s[i + 1..i + 1 + |p|];
    }
  }

  /** `split` gives a single piece exactly when the separator does not occur. */
  lemma {:induction false} SplitSingle(s: string, sep: string)
    requires sep != []
    ensures |Split(s, sep)| == 1 <==> !Contains(s, sep)
    decreases |s|
  {
    if StartsAt(s, sep, 0) {
      assert |Split(s, sep)| >= 2;
    } else if s != [] {
      SplitSingle(s[1..], sep);
      if Contains(s, sep) {
        var i: nat :| i <= |s| && StartsAt(s, sep, i);
        StartsAtTail(s, sep, i - 1);
        assert StartsAt(s[1..], sep, i - 1);
      }
      if Contains(s[1..], sep) {
        var i: nat :| i <= |s[1..]| && StartsAt(s[1..], sep, i);
        StartsAtTail(s, sep, i);
        assert StartsAt(s, sep, i + 1);
      }
    }
  }

  /** `s.replace(/p/g, r)` for a literal, non-empty pattern: scanning left to
      right, every occurrence not overlapping an earlier one becomes `r`. */
  function ReplaceAll(s: string, p: string, r: string): string
    requires p != []
    decreases |s|
  {
    if StartsAt(s, p, 0) then r + ReplaceAll(s[|p|..], p, r)
    else if s == [] then ""
    else [s[0]] + ReplaceAll(s[1..], p, r)
  }

  /** Global replacement is split-then-join: the pieces between the
      occurrences are kept and every occurrence becomes `r`. */
  lemma {:induction false} ReplaceAllIsSplitJoin(s: string, p: string, r: string)
    requires p != []
    ensures ReplaceAll(s, p, r) == Join(Split(s, p), r)
    decreases |s|
  {
    if StartsAt(s, p, 0) {
      ReplaceAllIsSplitJoin(s[|p|..], p, r);
      JoinCons("", Split(s[|p|..], p), r);
    } else if s != [] {
      ReplaceAllIsSplitJoin(s[1..], p, r);
      JoinHead(s[0], Split(s[1..], p), r);
    }
  }

  /** Without an occurrence the string is unchanged. */
  lemma {:induction false} ReplaceAllAbsent(s: string, p: string, r: string)
    requires p != []
    requires !Contains(s, p)
    ensures ReplaceAll(s, p, r) == s
    decreases |s|
  {
    if s != [] {
      assert !StartsAt(s, p, 0);
      forall i: nat ensures !StartsAt(s[1..], p, i) {
        if StartsAt(s[1..], p, i) {
          assert s[1..][i..i + |p|] == s[i + 1..i + 1 + |p|];
          assert StartsAt(s, p, i + 1);
        }
      }
      ReplaceAllAbsent(s[1..], p, r);
    }
  }

  /** Replacing a pattern by itself changes nothing. */
  lemma {:induction false} ReplaceAllSelf(s: string, p: string)
    requires p != []
    ensures ReplaceAll(s, p, p) == s
    decreases |s|
  {
    if StartsAt(s, p, 0) {
      ReplaceAllSelf(s[|p|..], p);
      assert s == p + s[|p|..];
    } else if s != [] {
      ReplaceAllSelf(s[1..], p);
      assert s == [s[0]] + s[1..];
    }
  }

  /** A one-character pattern cannot straddle a concatenation. */
  lemma {:induction false} ReplaceCharAppend(a: string, b: string, c: char, r: string)
    ensures ReplaceAll(a + b, [c], r) == ReplaceAll(a, [c], r) + ReplaceAll(b, [c], r)
    decreases |a|
  {
    if a != [] {
      assert (a + b)[1..] == a[1..] + b;
      assert StartsAt(a + b, [c], 0) <==> StartsAt(a, [c], 0);
      ReplaceCharAppend(a[1..], b, c, r);
      if StartsAt(a, [c], 0) {
        assert a[|[c]|..] == a[1..];
        assert (a + b)[|[c]|..] == a[1..] + b;
      }
    } else {
      assert a + b == b;
    }
  }

  /** A one-character pattern leaves a string without that character alone. */
  lemma {:induction false} ReplaceCharAbsent(s: string, c: char, r: string)
    requires c !in s
    ensures ReplaceAll(s, [c], r) == s
    decreases |s|
  {
    if s != [] {
      assert s[0] != c;
      assert !StartsAt(s, [c], 0) by { assert s[0..1] == [s[0]]; }
      ReplaceCharAbsent(s[1..], c, r);
      assert s == [s[0]] + s[1..];
    }
  }

  /** A one-character string is replaced exactly when it is the pattern. */
  lemma ReplaceCharSingle(x: char, c: char, r: string)
    ensures ReplaceAll([x], [c], r) == if x == c then r else [x]
  {
    assert [x][1..] == [];
    assert [x][0..1] == [x];
    if x == c {
      assert StartsAt([x], [c], 0);
      assert ReplaceAll([x][1..], [c], r) == "";
    } else {
      assert !StartsAt([x], [c], 0);
    }
  }

  // ---------------------------------------------------------------------------
  // Case-insensitive removal (`s.replace(/p/gi, '')` for an ASCII pattern)

  /** ASCII lower-casing; a case-insensitive JavaScript regular expression
      never equates a non-ASCII character with an ASCII one. */
  function LowerAscii(c: char): char
  {
    if 'A' <= c <= 'Z' then (c as int + 32) as char else c
  }

  function UpperAscii(c: char): char
  {
    if 'a' <= c <= 'z' then (c as int - 32) as char else c
  }

  /** `s.toUpperCase()` on the ASCII letters. */
  function ToUpper(s: string): (r: string)
    ensures |r| == |s|
    ensures forall i :: 0 <= i < |s| ==> r[i] == UpperAscii(s[i])
  {
    seq(|s|, i requires 0 <= i < |s| => UpperAscii(s[i]))
  }

  /** `p` occurs in `s` at `i`, ignoring ASCII case. */
  predicate MatchesAt(s: string, p: string, i: nat)
  {
    i + |p| <= |s| && forall j :: 0 <= j < |p| ==> LowerAscii(s[i + j]) == LowerAscii(p[j])
  }

  predicate ContainsIgnoringCase(s: string, p: string)
  {
    exists i: nat | i <= |s| :: MatchesAt(s, p, i)
  }

  /** Deletes every case-insensitive occurrence of `p`, left to right,
      without rescanning what the deletion splices together. */
  function RemoveIgnoringCase(s: string, p: string): string
    requires p != []
    decreases |s|
  {
    if MatchesAt(s, p, 0) then RemoveIgnoringCase(s[|p|..], p)
    else if s == [] then ""
    else [s[0]] + RemoveIgnoringCase(s[1..], p)
  }

  /** `a` can be obtained from `b` by deleting characters. */
  predicate IsSubsequence(a: string, b: string)
    decreases |b|
  {
    a == [] || (b != [] && ((a[0] == b[0] && IsSubsequence(a[1..], b[1..])) || IsSubsequence(a, b[1..])))
  }

  lemma {:induction false} SubsequenceReflexive(a: string)
    ensures IsSubsequence(a, a)
    decreases |a|
  {
    if a != [] { SubsequenceReflexive(a[1..]); }
  }

  lemma {:induction false} SubsequenceTransitive(a: string, b: string, c: string)
    requires IsSubsequence(a, b) && IsSubsequence(b, c)
    ensures IsSubsequence(a, c)
    decreases |c|
  {
    if a != [] {
      assert b != [] && c != [];
      if b[0] == c[0] && IsSubsequence(b[1..], c[1..]) {
        if a[0] == b[0] && IsSubsequence(a[1..], b[1..]) {
          SubsequenceTransitive(a[1..], b[1..], c[1..]);
        } else {
          SubsequenceTransitive(a, b[1..], c[1..]);
        }
      } else {
        SubsequenceTransitive(a, b, c[1..]);
      }
    }
  }

  /** Deleting a prefix keeps a subsequence. */
  lemma {:induction false} SubsequenceOfSuffix(a: string, b: string, k: nat)
    requires k <= |b| && IsSubsequence(a, b[k..])
    ensures IsSubsequence(a, b)
    decreases k
  {
    if k > 0 {
      assert b[1..][k - 1..] == b[k..];
      SubsequenceOfSuffix(a, b[1..], k - 1);
    }
  }

  /** Case-insensitive removal only deletes characters. */
  lemma {:induction false} RemoveIgnoringCaseIsSubsequence(s: string, p: string)
    requires p != []
    ensures IsSubsequence(RemoveIgnoringCase(s, p), s)
    decreases |s|
  {
    if MatchesAt(s, p, 0) {
      RemoveIgnoringCaseIsSubsequence(s[|p|..], p);
      SubsequenceOfSuffix(RemoveIgnoringCase(s, p), s, |p|);
    } else if s != [] {
      RemoveIgnoringCaseIsSubsequence(s[1..], p);
      var r := RemoveIgnoringCase(s, p);
      assert r[0] == s[0] && r[1..] == RemoveIgnoringCase(s[1..], p);
    }
  }

  /** Without a case-insensitive occurrence nothing is removed. */
  lemma {:induction false} RemoveIgnoringCaseAbsent(s: string, p: string)
    requires p != []
    requires !ContainsIgnoringCase(s, p)
    ensures RemoveIgnoringCase(s, p) == s
    decreases |s|
  {
    if s != [] {
      assert !MatchesAt(s, p, 0);
      forall i: nat ensures !MatchesAt(s[1..], p, i) {
        if MatchesAt(s[1..], p, i) {
          assert MatchesAt(s, p, i + 1);
        }
      }
      RemoveIgnoringCaseAbsent(s[1..], p);
      assert s == [s[0]] + s[1..];
    }
  }

  // ---------------------------------------------------------------------------
  // Whitespace

  /** The characters `String.prototype.trim` and `parseInt` skip: WhiteSpace
      and LineTerminator of ECMA-262. */
  predicate IsSpace(c: char)
  {
    c == '\t' || c == '\n' || c == '\U{000B}' || c == '\U{000C}' || c == '\r' || c == ' '
    || c == '\U{00A0}' || c == '\U{1680}' || ('\U{2000}' <= c <= '\U{200A}')
    || c == '\U{2028}' || c == '\U{2029}' || c == '\U{202F}' || c == '\U{205F}'
    || c == '\U{3000}' || c == '\U{FEFF}'
  }

  function TrimStart(s: string): (r: string)
    ensures |r| <= |s| && r == s[|s| - |r|..]
    ensures forall i :: 0 <= i < |s| - |r| ==> IsSpace(s[i])
    ensures r != [] ==> !IsSpace(r[0])
    decreases |s|
  {
    if s != [] && IsSpace(s[0]) then TrimStart(s[1..]) else s
  }

  function TrimEnd(s: string): (r: string)
    ensures |r| <= |s| && r == s[..|r|]
    ensures forall i :: |r| <= i < |s| ==> IsSpace(s[i])
    ensures r != [] ==> !IsSpace(r[|r| - 1])
    decreases |s|
  {
    if s != [] && IsSpace(s[|s| - 1]) then TrimEnd(s[..|s| - 1]) else s
  }

  /** `s.trim()`. */
  function Trim(s: string): string
  {
    TrimEnd(TrimStart(s))
  }

  predicate IsBlank(s: string)
  {
    forall i :: 0 <= i < |s| ==> IsSpace(s[i])
  }

  /** `s.trim() === ''` exactly when every character is whitespace. */
  lemma TrimEmptyIffBlank(s: string)
    ensures Trim(s) == "" <==> IsBlank(s)
  {
    var t := TrimStart(s);
    if !IsBlank(s) {
      assert t != [];
      assert TrimEnd(t) != [] by { assert !IsSpace(t[0]); }
    }
  }

  /** Whitespace in front does not survive `trimStart`. */
  lemma {:induction false} TrimStartBlank(u: string, x: string)
    requires IsBlank(u)
    ensures TrimStart(u + x) == TrimStart(x)
    decreases |u|
  {
    if u != [] {
      assert (u + x)[0] == u[0];
      assert IsBlank(u[1..]);
      assert (u + x)[1..] == u[1..] + x;
      TrimStartBlank(u[1..], x);
    } else {
      assert u + x == x;
    }
  }

  /** `trimStart` of a text that is not all whitespace keeps whatever
      follows the text. */
  lemma {:induction false} TrimStartAppend(c: string, v: string)
    requires TrimStart(c) != []
    ensures TrimStart(c + v) == TrimStart(c) + v
    decreases |c|
  {
    if IsSpace(c[0]) {
      TrimStartAppend(c[1..], v);
      TrimStartSpace(c, v);
    } else {
      TrimStartKeep(c, v);
    }
  }

  /** A leading space of `c` is dropped from `c + v` too. */
  lemma TrimStartSpace(c: string, v: string)
    requires c != [] && IsSpace(c[0])
    ensures TrimStart(c + v) == TrimStart(c[1..] + v)
  {
    assert (c + v)[0] == c[0];
    assert (c + v)[1..] == c[1..] + v;
  }

  /** A text that does not start with a space keeps what follows it. */
  lemma TrimStartKeep(c: string, v: string)
    requires c != [] && !IsSpace(c[0])
    ensures TrimStart(c + v) == TrimStart(c) + v
  {
    assert (c + v)[0] == c[0];
  }

  /** Whitespace behind does not survive `trimEnd`. */
  lemma {:induction false} TrimEndBlank(x: string, v: string)
    requires IsBlank(v)
    ensures TrimEnd(x + v) == TrimEnd(x)
    decreases |v|
  {
    if v != [] {
      assert (x + v)[|x + v| - 1] == v[|v| - 1];
      assert IsBlank(v[..|v| - 1]);
      assert (x + v)[..|x + v| - 1] == x + v[..|v| - 1];
      TrimEndBlank(x, v[..|v| - 1]);
    } else {
      assert x + v == x;
    }
  }

  /** Whitespace around a text does not change its trim. */
  lemma TrimFramed(u: string, c: string, v: string)
    requires IsBlank(u) && IsBlank(v)
    ensures Trim(u + c + v) == Trim(c)
  {
    Regroup(u, c, v);
    TrimStartBlank(u, c + v);
    if TrimStart(c) != [] {
      TrimStartAppend(c, v);
      TrimEndBlank(TrimStart(c), v);
    } else {
      TrimEmptyIffBlank(c);
      assert IsBlank(c + v);
      TrimEmptyIffBlank(c + v);
    }
  }

  /** `s.padStart(width, ' ')`. */
  function PadStart(s: string, width: nat): (r: string)
    ensures |r| == if |s| >= width then |s| else width
    ensures r[|r| - |s|..] == s
    ensures forall i :: 0 <= i < |r| - |s| ==> r[i] == ' '
  {
    if |s| >= width then s else seq(width - |s|, _ => ' ') + s
  }

  /** `xs.map(f).join('')`: the pieces of the elements, in order. */
  function MapConcat<T>(xs: seq<T>, f: T -> string): string
  {
    if xs == [] then "" else MapConcat(xs[..|xs| - 1], f) + f(xs[|xs| - 1])
  }

  /** The pieces of a concatenation are the pieces of its parts. */
  lemma {:induction false} MapConcatAppend<T>(a: seq<T>, b: seq<T>, f: T -> string)
    ensures MapConcat(a + b, f) == MapConcat(a, f) + MapConcat(b, f)
    decreases |b|
  {
    if b == [] {
      assert a + b == a;
    } else {
      var b0 := b[..|b| - 1];
      assert (a + b)[..|a + b| - 1] == a + b0;
      assert (a + b)[|a + b| - 1] == b[|b| - 1];
      MapConcatAppend(a, b0, f);
      assert MapConcat(a, f) + MapConcat(b0, f) + f(b[|b| - 1])
        == MapConcat(a, f) + (MapConcat(b0, f) + f(b[|b| - 1]));
    }
  }

  /** A single element gives its own piece. */
  lemma MapConcatSingle<T>(x: T, f: T -> string)
    ensures MapConcat([x], f) == f(x)
  {
    assert [x][..0] == [];
    assert "" + f(x) == f(x);
  }
}
