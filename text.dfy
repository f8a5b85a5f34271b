/**
  The Python `str` operations the transcript script calls, with the meaning
  CPython gives them: `strip`, `lstrip` of given characters, `in`, `split`
  on one character, `join` and `lower` on ASCII text. Also the pieces these
  and urlsplit are made of: the leading and trailing trims, `find` and
  `rfind` of a character, `replace` of one character and the removal of
  the characters urlsplit deletes.
 */
module Text {

  /** `c.isspace()`: the characters `str.strip()` with no argument removes. */
  predicate IsSpace(c: char) {
    ('\t' <= c <= '\r') || ('\U{1C}' <= c <= ' ') || c == '\U{85}' || c == '\U{A0}'
    || c == '\U{1680}' || ('\U{2000}' <= c <= '\U{200A}') || c == '\U{2028}' || c == '\U{2029}'
    || c == '\U{202F}' || c == '\U{205F}' || c == '\U{3000}'
  }

  /** `s.lstrip(chars)`: the longest suffix of `s` that does not start with a dropped character. */
  function TrimStart(s: string, drop: char -> bool): string
  {
    if s != [] && drop(s[0]) then TrimStart(s[1..], drop) else s
  }

  /** `lstrip` keeps a suffix, every character it drops is a dropped one, and it stops at a kept one. */
  lemma {:induction false} TrimStartShape(s: string, drop: char -> bool)
    ensures var r := TrimStart(s, drop);
      |r| <= |s| && (forall i | 0 <= i < |r| :: r[i] == s[|s| - |r| + i])
      && (forall i | 0 <= i < |s| - |r| :: drop(s[i]))
      && (r == [] || !drop(r[0]))
  {
    if s != [] && drop(s[0]) {
      TrimStartShape(s[1..], drop);
    }
  }

  /** `s.rstrip(chars)`: the longest prefix of `s` that does not end with a dropped character. */
  function TrimEnd(s: string, drop: char -> bool): string
  {
    if s != [] && drop(s[|s| - 1]) then TrimEnd(s[..|s| - 1], drop) else s
  }

  /** `rstrip` keeps a prefix, every character it drops is a dropped one, and it stops at a kept one. */
  lemma {:induction false} TrimEndShape(s: string, drop: char -> bool)
    ensures var r := TrimEnd(s, drop);
      |r| <= |s| && (forall i | 0 <= i < |r| :: r[i] == s[i])
      && (forall i | |r| <= i < |s| :: drop(s[i]))
      && (r == [] || !drop(r[|r| - 1]))
  {
    if s != [] && drop(s[|s| - 1]) {
      TrimEndShape(s[..|s| - 1], drop);
    }
  }

  /** `r` is what is left of `s` between a prefix of length `a` and a suffix, both of dropped characters. */
  ghost predicate TrimmedAt(s: string, r: string, a: int, drop: char -> bool) {
    0 <= a && a + |r| <= |s| && (forall i | 0 <= i < |r| :: r[i] == s[a + i])
    && (forall i | 0 <= i < a :: drop(s[i]))
    && (forall i | a + |r| <= i < |s| :: drop(s[i]))
  }

  /** Trimming both ends leaves the middle of `s`. */
  lemma TrimBoth(s: string, drop: char -> bool)
    ensures TrimmedAt(s, TrimEnd(TrimStart(s, drop), drop), |s| - |TrimStart(s, drop)|, drop)
  {
    TrimStartShape(s, drop);
    TrimEndShape(TrimStart(s, drop), drop);
  }

  /** `s.strip()`: `s` without its leading and trailing whitespace. */
  function Strip(s: string): string
  {
    TrimEnd(TrimStart(s, IsSpace), IsSpace)
  }

  /** `strip` never lengthens a string and leaves no whitespace at either end. */
  lemma StripEnds(s: string)
    ensures |Strip(s)| <= |s|
    ensures Strip(s) == [] || (!IsSpace(Strip(s)[0]) && !IsSpace(Strip(s)[|Strip(s)| - 1]))
  {
    TrimStartShape(s, IsSpace);
    TrimEndShape(TrimStart(s, IsSpace), IsSpace);
  }

  /** What `strip` removes is whitespace, from the two ends only. */
  lemma StripSlice(s: string)
    ensures TrimmedAt(s, Strip(s), |s| - |TrimStart(s, IsSpace)|, IsSpace)
  {
    TrimBoth(s, IsSpace);
  }

  /** Left-trimming a string with one more character at its end. */
  lemma {:induction false} TrimStartSnoc(s: string, c: char, drop: char -> bool)
    ensures TrimStart(s + [c], drop) ==
      if TrimStart(s, drop) == [] && drop(c) then [] else TrimStart(s, drop) + [c]
  {
    if s != [] {
      assert (s + [c])[0] == s[0] && (s + [c])[1..] == s[1..] + [c];
      TrimStartSnoc(s[1..], c, drop);
    }
  }

  /** A string that neither starts nor ends with whitespace is left unchanged by `strip`. */
  lemma StripUnchanged(s: string)
    requires s == [] || (!IsSpace(s[0]) && !IsSpace(s[|s| - 1]))
    ensures Strip(s) == s
  {
    assert TrimStart(s, IsSpace) == s;
  }

  /** Leading whitespace does not change what `strip` leaves. */
  lemma StripDropFirst(s: string)
    requires s != [] && IsSpace(s[0])
    ensures Strip(s) == Strip(s[1..])
  {
  }

  /** Trailing whitespace does not change what `strip` leaves. */
  lemma StripDropLast(s: string)
    requires s != [] && IsSpace(s[|s| - 1])
    ensures Strip(s) == Strip(s[..|s| - 1])
  {
    var init, last := s[..|s| - 1], s[|s| - 1];
    var t := TrimStart(init, IsSpace);
    assert TrimStart(s, IsSpace) == if t == [] then [] else t + [last] by {
      assert s == init + [last];
      TrimStartSnoc(init, last, IsSpace);
    }
    if t != [] {
      assert (t + [last])[..|t|] == t;
    }
  }

  /** Stripping twice is stripping once. */
  lemma StripIdempotent(s: string)
    ensures Strip(Strip(s)) == Strip(s)
  {
    var r := Strip(s);
    StripEnds(s);
    assert TrimStart(r, IsSpace) == r;
    assert TrimEnd(r, IsSpace) == r;
  }

  /** `s.strip()` is empty exactly when every character of `s` is whitespace. */
  lemma StripEmptyIffBlank(s: string)
    ensures Strip(s) == [] <==> forall i | 0 <= i < |s| :: IsSpace(s[i])
  {
    var a := |s| - |TrimStart(s, IsSpace)|;
    StripSlice(s);
    StripEnds(s);
    if Strip(s) != [] {
      assert s[a] == Strip(s)[0];
    }
  }

  /** The first index of `s` holding a character of `stops`, or `|s|` when there is none. */
  function FindAny(s: string, stops: set<char>): (k: nat)
    ensures k <= |s|
    ensures k < |s| ==> s[k] in stops
    ensures forall i | 0 <= i < k :: s[i] !in stops
  {
    if s == [] then 0 else if s[0] in stops then 0 else 1 + FindAny(s[1..], stops)
  }

  /** `s.find(c)`, with `|s|` standing for Python's -1. */
  function IndexOf(s: string, c: char): (k: nat)
    ensures k <= |s| && (k < |s| <==> c in s)
    ensures k < |s| ==> s[k] == c
    ensures forall i | 0 <= i < k :: s[i] != c
  {
    FindAny(s, {c})
  }

  /** `s.rfind(c)` for a character that occurs in `s`. */
  function LastIndexOf(s: string, c: char): (k: nat)
    requires c in s
    ensures k < |s| && s[k] == c
    ensures forall i | k < i < |s| :: s[i] != c
  {
    if s[|s| - 1] == c then |s| - 1 else LastIndexOf(s[..|s| - 1], c)
  }

  /** `t` occurs in `s` starting at index `i`. */
  predicate OccursAt(s: string, t: string, i: int) {
    0 <= i <= |s| - |t| && s[i..i + |t|] == t
  }

  /** Python's `t in s` on two strings. */
  predicate Contains(s: string, t: string) {
    exists i | 0 <= i <= |s| - |t| :: OccursAt(s, t, i)
  }

  /** `s.split(c)`: the pieces of `s` between occurrences of `c`. */
  function Split(s: string, c: char): (parts: seq<string>)
    ensures |parts| >= 1
    ensures forall i | 0 <= i < |parts| :: c !in parts[i]
    decreases |s|
  {
    var k := IndexOf(s, c);
    if k == |s| then [s] else [s[..k]] + Split(s[k + 1..], c)
  }

  /** `sep.join(parts)`. */
  function Join(sep: string, parts: seq<string>): string
  {
    if |parts| == 0 then "" else if |parts| == 1 then parts[0] else parts[0] + sep + Join(sep, parts[1..])
  }

  /** Joining the pieces of a split with the separator gives the string back. */
  lemma {:induction false} JoinSplit(s: string, c: char)
    ensures Join([c], Split(s, c)) == s
    decreases |s|
  {
    var k := IndexOf(s, c);
    if k < |s| {
      var rest := Split(s[k + 1..], c);
      JoinSplit(s[k + 1..], c);
      SplitStep(s, c, k);
      JoinCons([c], s[..k], rest);
    }
  }

  /** A split at a first separator at `k`: the piece before it, then the split of the rest. */
  lemma SplitStep(s: string, c: char, k: nat)
    requires k == IndexOf(s, c) && k < |s|
    ensures Split(s, c) == [s[..k]] + Split(s[k + 1..], c)
    ensures s == s[..k] + [c] + s[k + 1..]
  {
  }

  /** Joining a first piece in front of a non-empty list puts the separator between them. */
  lemma JoinCons(sep: string, x: string, rest: seq<string>)
    requires rest != []
    ensures Join(sep, [x] + rest) == x + sep + Join(sep, rest)
  {
    assert ([x] + rest)[1..] == rest;
  }

  /** Splitting a join of pieces that do not contain the separator gives the pieces back. */
  lemma {:induction false} SplitJoin(parts: seq<string>, c: char)
    requires |parts| >= 1
    requires forall i | 0 <= i < |parts| :: c !in parts[i]
    ensures Split(Join([c], parts), c) == parts
  {
    var s := Join([c], parts);
    if |parts| == 1 {
      assert IndexOf(s, c) == |s|;
    } else {
      var tail := Join([c], parts[1..]);
      assert s == parts[0] + [c] + tail;
      assert s[|parts[0]|] == c;
      assert IndexOf(s, c) == |parts[0]|;
      assert s[..|parts[0]|] == parts[0];
      assert s[|parts[0]| + 1..] == tail;
      SplitJoin(parts[1..], c);
    }
  }

  /** A string without the separator splits into itself alone. */
  lemma SplitWithout(s: string, c: char)
    requires c !in s
    ensures Split(s, c) == [s]
  {
  }

  /** A join of non-empty pieces is empty only when there are no pieces. */
  lemma {:induction false} JoinEmpty(sep: string, parts: seq<string>)
    requires forall i | 0 <= i < |parts| :: parts[i] != ""
    ensures Join(sep, parts) == "" <==> parts == []
  {
    if |parts| > 1 {
      assert |Join(sep, parts)| >= |parts[0]|;
    }
  }

  /** The join of two or more pieces ends with the separator and the last piece. */
  lemma {:induction false} JoinSnoc(sep: string, parts: seq<string>, last: string)
    requires parts != []
    ensures Join(sep, parts + [last]) == Join(sep, parts) + sep + last
    decreases |parts|
  {
    if |parts| > 1 {
      assert (parts + [last])[1..] == parts[1..] + [last];
      JoinSnoc(sep, parts[1..], last);
    }
  }

  /** `s.replace(a, b)` for single characters. */
  function ReplaceChar(s: string, a: char, b: char): (r: string)
    ensures |r| == |s|
    ensures forall i | 0 <= i < |s| :: r[i] == (if s[i] == a then b else s[i])
  {
    seq(|s|, i requires 0 <= i < |s| => if s[i] == a then b else s[i])
  }

  /** `c.lower()` for an ASCII character; any other character is left alone. */
  function LowerChar(c: char): char {
    if 'A' <= c <= 'Z' then (c as int + 32) as char else c
  }

  /** `s.lower()` for the ASCII strings it is applied to in this program. */
  function AsciiLower(s: string): (r: string)
    ensures |r| == |s|
    ensures forall i | 0 <= i < |s| :: r[i] == LowerChar(s[i])
  {
    seq(|s|, i requires 0 <= i < |s| => LowerChar(s[i]))
  }

  /** Every character `drop` picks out is deleted, the others keep their order. */
  function RemoveAll(s: string, drop: char -> bool): (r: string)
    ensures |r| <= |s|
    ensures forall i | 0 <= i < |r| :: !drop(r[i])
    ensures (forall i | 0 <= i < |s| :: !drop(s[i])) ==> r == s
  {
    if s == [] then [] else (if drop(s[0]) then [] else [s[0]]) + RemoveAll(s[1..], drop)
  }

  /** Deleting characters from a concatenation deletes them from each part. */
  lemma {:induction false} RemoveAllAppend(a: string, b: string, drop: char -> bool)
    ensures RemoveAll(a + b, drop) == RemoveAll(a, drop) + RemoveAll(b, drop)
  {
    if a != [] {
      var head := if drop(a[0]) then [] else [a[0]];
      assert (a + b)[0] == a[0] && (a + b)[1..] == a[1..] + b;
      calc {
        RemoveAll(a + b, drop);
        head + RemoveAll(a[1..] + b, drop);
        { RemoveAllAppend(a[1..], b, drop); }
        head + (RemoveAll(a[1..], drop) + RemoveAll(b, drop));
        (head + RemoveAll(a[1..], drop)) + RemoveAll(b, drop);
      }
    } else {
      assert a + b == b;
    }
  }
}
