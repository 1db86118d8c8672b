/**
 * The parts of Go's strings, strconv and bufio packages that efm-langserver uses,
 * on strings as sequences of characters (one character per UTF-16 code unit).
 */
module Text {
  import opened Wrappers

  predicate HasPrefix(s: string, p: string) {
    |p| <= |s| && s[..|p|] == p
  }

  predicate HasSuffix(s: string, p: string) {
    |p| <= |s| && s[|s| - |p|..] == p
  }

  /** strings.Contains: some suffix of s starts with sub. */
  predicate Contains(s: string, sub: string)
    decreases |s|
  {
    HasPrefix(s, sub) || (|s| > 0 && Contains(s[1..], sub))
  }

  /** strings.TrimPrefix */
  function TrimPrefix(s: string, p: string): string {
    if HasPrefix(s, p) then s[|p|..] else s
  }

  /** strings.TrimRight: drops trailing characters that occur in the cut set. */
  function TrimRight(s: string, cutset: string): string
    decreases |s|
  {
    if |s| > 0 && s[|s| - 1] in cutset then TrimRight(s[..|s| - 1], cutset) else s
  }

  /**
   * unicode.IsSpace: tab, newline, vertical tab, form feed, carriage return, space, U+0085
   * and U+00A0 in Latin-1, and the other characters of Unicode's White_Space property.
   */
  predicate IsSpace(c: char) {
    || c == ' ' || ('\t' <= c <= '\r') || c == '\U{85}' || c == '\U{A0}'
    || c == '\U{1680}' || ('\U{2000}' <= c <= '\U{200A}') || c == '\U{2028}' || c == '\U{2029}'
    || c == '\U{202F}' || c == '\U{205F}' || c == '\U{3000}'
  }

  function TrimLeftSpace(s: string): string
    decreases |s|
  {
    if |s| > 0 && IsSpace(s[0]) then TrimLeftSpace(s[1..]) else s
  }

  function TrimRightSpace(s: string): string
    decreases |s|
  {
    if |s| > 0 && IsSpace(s[|s| - 1]) then TrimRightSpace(s[..|s| - 1]) else s
  }

  /** strings.TrimSpace */
  function TrimSpace(s: string): string {
    TrimRightSpace(TrimLeftSpace(s))
  }

  lemma {:induction false} TrimLeftSpaceSpec(s: string) returns (i: nat)
    ensures i <= |s| && TrimLeftSpace(s) == s[i..]
    ensures forall k :: 0 <= k < i ==> IsSpace(s[k])
    ensures i < |s| ==> !IsSpace(s[i])
    decreases |s|
  {
    if |s| > 0 && IsSpace(s[0]) {
      var i' := TrimLeftSpaceSpec(s[1..]);
      i := i' + 1;
      assert s[1..][i'..] == s[i..];
      forall k | 0 < k < i
        ensures IsSpace(s[k])
      {
        assert s[k] == s[1..][k - 1];
      }
      if i < |s| {
        assert s[i] == s[1..][i'];
      }
    } else {
      i := 0;
    }
  }

  lemma {:induction false} TrimRightSpaceSpec(s: string) returns (j: nat)
    ensures j <= |s| && TrimRightSpace(s) == s[..j]
    ensures forall k :: j <= k < |s| ==> IsSpace(s[k])
    ensures j > 0 ==> !IsSpace(s[j - 1])
    decreases |s|
  {
    if |s| > 0 && IsSpace(s[|s| - 1]) {
      j := TrimRightSpaceSpec(s[..|s| - 1]);
      assert s[..|s| - 1][..j] == s[..j];
      forall k | j <= k < |s| - 1
        ensures IsSpace(s[k])
      {
        assert s[k] == s[..|s| - 1][k];
      }
      if j > 0 {
        assert s[j - 1] == s[..|s| - 1][j - 1];
      }
    } else {
      j := |s|;
    }
  }

  /**
   * strings.TrimSpace cuts out the slice between the leading and the trailing white space:
   * everything before and after it is space, and it neither starts nor ends with space.
   */
  lemma TrimSpaceSpec(s: string) returns (i: nat, j: nat)
    ensures i <= j <= |s| && TrimSpace(s) == s[i..j]
    ensures forall k :: 0 <= k < i ==> IsSpace(s[k])
    ensures forall k :: j <= k < |s| ==> IsSpace(s[k])
    ensures i < j ==> !IsSpace(s[i]) && !IsSpace(s[j - 1])
  {
    i := TrimLeftSpaceSpec(s);
    var t := s[i..];
    var j' := TrimRightSpaceSpec(t);
    j := i + j';
    assert t[..j'] == s[i..j];
    forall k | j <= k < |s|
      ensures IsSpace(s[k])
    {
      assert s[k] == t[k - i];
    }
    if i < j {
      assert s[j - 1] == t[j' - 1];
    }
  }

  /** unicode.ToLower restricted to ASCII letters. */
  function ToLowerChar(c: char): char {
    if 'A' <= c <= 'Z' then (c as int + 32) as char else c
  }

  /** strings.ToLower */
  function ToLower(s: string): string
    decreases |s|
  {
    if |s| == 0 then "" else [ToLowerChar(s[0])] + ToLower(s[1..])
  }

  /** strings.ReplaceAll for a non-empty pattern: leftmost, non-overlapping occurrences. */
  function ReplaceAll(s: string, pat: string, rep: string): string
    requires |pat| > 0
    decreases |s|
  {
    if |s| == 0 then ""
    else if HasPrefix(s, pat) then rep + ReplaceAll(s[|pat|..], pat, rep)
    else [s[0]] + ReplaceAll(s[1..], pat, rep)
  }

  /** A string in which the pattern does not occur is left as it is. */
  lemma {:induction false} ReplaceAllAbsent(s: string, pat: string, rep: string)
    requires |pat| > 0 && !Contains(s, pat)
    ensures ReplaceAll(s, pat, rep) == s
    decreases |s|
  {
    if |s| > 0 {
      ReplaceAllAbsent(s[1..], pat, rep);
    }
  }

  /** A prefix free of the pattern's first character passes through untouched. */
  lemma {:induction false} ReplaceAllSkip(x: string, y: string, pat: string, rep: string)
    requires |pat| > 0 && pat[0] !in x
    ensures ReplaceAll(x + y, pat, rep) == x + ReplaceAll(y, pat, rep)
    decreases |x|
  {
    if |x| == 0 {
      assert x + y == y;
    } else {
      assert (x + y)[0] == x[0];
      assert !HasPrefix(x + y, pat);
      assert (x + y)[1..] == x[1..] + y;
      ReplaceAllSkip(x[1..], y, pat, rep);
    }
  }

  /** A string free of the pattern's first character does not contain the pattern. */
  lemma {:induction false} NotContainsWithoutFirst(s: string, pat: string)
    requires |pat| > 0 && pat[0] !in s
    ensures !Contains(s, pat)
    decreases |s|
  {
    if |s| > 0 {
      NotContainsWithoutFirst(s[1..], pat);
    }
  }

  /** Replacing every occurrence of one character by text without it removes the character. */
  lemma {:induction false} ReplaceCharGone(s: string, c: char, rep: string)
    requires c !in rep
    ensures c !in ReplaceAll(s, [c], rep)
    decreases |s|
  {
    if |s| > 0 {
      ReplaceCharGone(s[1..], c, rep);
    }
  }

  /**
   * Replacing a character by nothing drops exactly its occurrences: every other character
   * stays as often as it was, and a second pass changes nothing.
   */
  lemma {:induction false} ReplaceCharDrops(s: string, c: char)
    ensures forall x :: x != c ==> multiset(ReplaceAll(s, [c], ""))[x] == multiset(s)[x]
    ensures |ReplaceAll(s, [c], "")| == |s| - multiset(s)[c]
    ensures ReplaceAll(ReplaceAll(s, [c], ""), [c], "") == ReplaceAll(s, [c], "")
    decreases |s|
  {
    ReplaceCharGone(s, c, "");
    NotContainsWithoutFirst(ReplaceAll(s, [c], ""), [c]);
    ReplaceAllAbsent(ReplaceAll(s, [c], ""), [c], "");
    if |s| > 0 {
      ReplaceCharDrops(s[1..], c);
      assert s == [s[0]] + s[1..];
      assert multiset(s) == multiset{s[0]} + multiset(s[1..]);
      if s[0] == c {
        assert HasPrefix(s, [c]);
        assert ReplaceAll(s, [c], "") == ReplaceAll(s[1..], [c], "");
      } else {
        assert !HasPrefix(s, [c]);
        assert ReplaceAll(s, [c], "") == [s[0]] + ReplaceAll(s[1..], [c], "");
        assert multiset(ReplaceAll(s, [c], "")) == multiset{s[0]} + multiset(ReplaceAll(s[1..], [c], ""));
      }
    }
  }

  /** strings.Split with a one-character separator: n separators give n+1 parts. */
  function Split(s: string, sep: char): (parts: seq<string>)
    ensures |parts| >= 1
    decreases |s|
  {
    if |s| == 0 then [""]
    else
      var rest := Split(s[1..], sep);
      if s[0] == sep then [""] + rest
      else [[s[0]] + rest[0]] + rest[1..]
  }

  /** Split of a non-empty string, in terms of the split of its tail. */
  lemma SplitCons(s: string, sep: char)
    requires |s| > 0
    ensures Split(s, sep) == if s[0] == sep then [""] + Split(s[1..], sep)
      else [[s[0]] + Split(s[1..], sep)[0]] + Split(s[1..], sep)[1..]
  {
  }

  /** A string without the separator splits into itself alone. */
  lemma {:induction false} SplitFree(s: string, sep: char)
    requires sep !in s
    ensures Split(s, sep) == [s]
    decreases |s|
  {
    if |s| > 0 {
      SplitFree(s[1..], sep);
      assert [s[0]] + s[1..] == s;
    }
  }

  /** A separator-free first part is split off before the first separator. */
  lemma {:induction false} SplitAfterPart(a: string, b: string, sep: char)
    requires sep !in a
    ensures Split(a + [sep] + b, sep) == [a] + Split(b, sep)
    decreases |a|
  {
    var s := a + [sep] + b;
    if |a| == 0 {
      assert s[1..] == b;
    } else {
      assert s[1..] == a[1..] + [sep] + b;
      SplitAfterPart(a[1..], b, sep);
      assert [a[0]] + a[1..] == a;
    }
  }

  /** strings.Join with a one-character separator. */
  function Join(parts: seq<string>, sep: char): string
    decreases |parts|
  {
    if |parts| == 0 then ""
    else if |parts| == 1 then parts[0]
    else parts[0] + [sep] + Join(parts[1..], sep)
  }

  /** Concatenation regrouped; stated once so that proofs need not rediscover it. */
  lemma AppendAssoc<T>(x: seq<T>, y: seq<T>, z: seq<T>)
    ensures x + (y + z) == (x + y) + z
  {
  }

  /** strings.Join(parts, ""): plain concatenation. */
  function Concat(parts: seq<string>): string
    decreases |parts|
  {
    if |parts| == 0 then "" else parts[0] + Concat(parts[1..])
  }

  lemma {:induction false} ConcatAppend(p: seq<string>, q: seq<string>)
    ensures Concat(p + q) == Concat(p) + Concat(q)
    decreases |p|
  {
    if |p| == 0 {
      assert p + q == q;
    } else {
      assert (p + q)[1..] == p[1..] + q;
      ConcatAppend(p[1..], q);
    }
  }

  /** Joining the parts of a split with the same separator gives back the string. */
  lemma {:induction false} JoinSplit(s: string, sep: char)
    ensures Join(Split(s, sep), sep) == s
    decreases |s|
  {
    if |s| > 0 {
      var rest := Split(s[1..], sep);
      JoinSplit(s[1..], sep);
      if s[0] == sep {
        assert ([""] + rest)[1..] == rest;
      } else {
        var parts := [[s[0]] + rest[0]] + rest[1..];
        assert Split(s, sep) == parts;
        if |rest| == 1 {
          assert parts == [[s[0]] + rest[0]];
        } else {
          assert parts[1..] == rest[1..];
        }
      }
    }
  }

  /** No part of a split contains the separator. */
  lemma {:induction false} SplitPartsFree(s: string, sep: char)
    ensures forall i :: 0 <= i < |Split(s, sep)| ==> sep !in Split(s, sep)[i]
    decreases |s|
  {
    if |s| > 0 {
      SplitPartsFree(s[1..], sep);
    }
  }

  /** Where part n of a split starts: the earlier parts' lengths, each plus its separator. */
  function Offset(parts: seq<string>, n: nat): nat
    requires n <= |parts|
  {
    if n == 0 then 0 else Offset(parts, n - 1) + |parts[n - 1]| + 1
  }

  lemma {:induction false} OffsetCons(p: string, rest: seq<string>, n: nat)
    requires n <= |rest|
    ensures Offset([p] + rest, n + 1) == |p| + 1 + Offset(rest, n)
  {
    if n > 0 {
      OffsetCons(p, rest, n - 1);
      assert ([p] + rest)[n] == rest[n - 1];
    }
  }

  lemma {:induction false} OffsetMonotone(parts: seq<string>, m: nat, n: nat)
    requires m <= n <= |parts|
    ensures Offset(parts, m) <= Offset(parts, n)
    decreases n - m
  {
    if m < n {
      OffsetMonotone(parts, m, n - 1);
    }
  }

  /** The parts of a split, placed end to end with one separator between them, span the string and one more. */
  lemma {:induction false} SplitTotal(s: string, sep: char)
    ensures Offset(Split(s, sep), |Split(s, sep)|) == |s| + 1
    decreases |s|
  {
    if |s| > 0 {
      SplitTotal(s[1..], sep);
      SplitTotalStep(s, sep);
    }
  }

  /** One step of SplitTotal: the first character adds one to the span. */
  lemma SplitTotalStep(s: string, sep: char)
    requires |s| > 0
    requires Offset(Split(s[1..], sep), |Split(s[1..], sep)|) == |s|
    ensures Offset(Split(s, sep), |Split(s, sep)|) == |s| + 1
  {
    var rest := Split(s[1..], sep);
    if s[0] == sep {
      assert Split(s, sep) == [""] + rest;
      OffsetCons("", rest, |rest|);
    } else {
      var head := [s[0]] + rest[0];
      assert Split(s, sep) == [head] + rest[1..];
      OffsetCons(head, rest[1..], |rest| - 1);
      OffsetCons(rest[0], rest[1..], |rest| - 1);
      assert [rest[0]] + rest[1..] == rest;
    }
  }

  /** part occurs in s at off, and right after a separator unless it starts the string. */
  predicate PlacedAt(s: string, sep: char, part: string, off: int) {
    0 <= off && off + |part| <= |s| && s[off..off + |part|] == part && (off > 0 ==> s[off - 1] == sep)
  }

  lemma PlacedShift(s: string, sep: char, part: string, off: int)
    requires |s| > 0 && PlacedAt(s[1..], sep, part, off)
    requires off == 0 ==> s[0] == sep
    ensures PlacedAt(s, sep, part, off + 1)
  {
    assert s[off + 1..off + 1 + |part|] == s[1..][off..off + |part|];
  }

  /**
   * Part r of a split sits at Offset(parts, r) in the string, and (except for the
   * first part) right after a separator.
   */
  lemma {:induction false} SplitLayout(s: string, sep: char, r: nat)
    requires r < |Split(s, sep)|
    ensures PlacedAt(s, sep, Split(s, sep)[r], Offset(Split(s, sep), r))
    decreases |s|
  {
    if |s| > 0 {
      var rest := Split(s[1..], sep);
      if s[0] == sep {
        if r > 0 {
          SplitLayout(s[1..], sep, r - 1);
          LayoutAfterSeparator(s, sep, r);
        }
      } else if r == 0 {
        SplitLayout(s[1..], sep, 0);
        LayoutFirstPart(s, sep);
      } else {
        SplitLayout(s[1..], sep, r);
        LayoutLaterPart(s, sep, r);
      }
    }
  }

  /** SplitLayout's step when the string starts with the separator: part r is part r-1 of the rest. */
  lemma LayoutAfterSeparator(s: string, sep: char, r: nat)
    requires |s| > 0 && s[0] == sep && 0 < r < |Split(s, sep)|
    requires r - 1 < |Split(s[1..], sep)|
    requires PlacedAt(s[1..], sep, Split(s[1..], sep)[r - 1], Offset(Split(s[1..], sep), r - 1))
    ensures PlacedAt(s, sep, Split(s, sep)[r], Offset(Split(s, sep), r))
  {
    var rest := Split(s[1..], sep);
    assert Split(s, sep) == [""] + rest;
    OffsetCons("", rest, r - 1);
    PlacedShift(s, sep, rest[r - 1], Offset(rest, r - 1));
  }

  /** SplitLayout's step for the first part when the string does not start with the separator. */
  lemma LayoutFirstPart(s: string, sep: char)
    requires |s| > 0 && s[0] != sep
    requires PlacedAt(s[1..], sep, Split(s[1..], sep)[0], 0)
    ensures PlacedAt(s, sep, Split(s, sep)[0], 0)
  {
    var rest := Split(s[1..], sep);
    var head := [s[0]] + rest[0];
    assert Split(s, sep)[0] == head;
    assert s[..|head|] == [s[0]] + s[1..][..|rest[0]|];
  }

  /** SplitLayout's step for a later part when the string does not start with the separator. */
  lemma LayoutLaterPart(s: string, sep: char, r: nat)
    requires |s| > 0 && s[0] != sep && 0 < r < |Split(s, sep)|
    requires r < |Split(s[1..], sep)|
    requires PlacedAt(s[1..], sep, Split(s[1..], sep)[r], Offset(Split(s[1..], sep), r))
    ensures PlacedAt(s, sep, Split(s, sep)[r], Offset(Split(s, sep), r))
  {
    LaterPartShift(s, sep, r);
    PlacedShift(s, sep, Split(s[1..], sep)[r], Offset(Split(s[1..], sep), r));
  }

  /** A later part of a split of a string not starting with the separator is the rest's part, one further on. */
  lemma LaterPartShift(s: string, sep: char, r: nat)
    requires |s| > 0 && s[0] != sep && 0 < r < |Split(s, sep)|
    ensures r < |Split(s[1..], sep)|
    ensures Split(s, sep)[r] == Split(s[1..], sep)[r]
    ensures Offset(Split(s, sep), r) == Offset(Split(s[1..], sep), r) + 1
  {
    SplitCons(s, sep);
    OffsetLonger(Split(s, sep), Split(s[1..], sep), r);
  }

  /** Two part lists that differ only in a first part one longer have offsets one apart. */
  lemma {:induction false} OffsetLonger(parts: seq<string>, other: seq<string>, r: nat)
    requires |parts| == |other| > 0 && |parts[0]| == |other[0]| + 1
    requires forall i :: 0 < i < |parts| ==> parts[i] == other[i]
    requires 0 < r <= |parts|
    ensures Offset(parts, r) == Offset(other, r) + 1
  {
    if r > 1 {
      OffsetLonger(parts, other, r - 1);
    }
  }

  /** strings.SplitAfter with a one-character separator: every part but the last keeps its separator. */
  function SplitAfter(s: string, sep: char): (parts: seq<string>)
    ensures |parts| >= 1
    decreases |s|
  {
    if |s| == 0 then [""]
    else
      var rest := SplitAfter(s[1..], sep);
      if s[0] == sep then [[sep]] + rest
      else [[s[0]] + rest[0]] + rest[1..]
  }

  /** strings.SplitN(s, sep, 2): the text before the first separator and the rest, or s alone. */
  function SplitN2(s: string, sep: char): (parts: seq<string>)
    ensures 1 <= |parts| <= 2
    ensures |parts| == 1 <==> sep !in s
    ensures |parts| == 1 ==> parts[0] == s
    ensures |parts| == 2 ==> parts[0] + [sep] + parts[1] == s && sep !in parts[0]
    decreases |s|
  {
    if |s| == 0 then [""]
    else if s[0] == sep then ["", s[1..]]
    else
      var r := SplitN2(s[1..], sep);
      [[s[0]] + r[0]] + r[1..]
  }

  /** strings.SplitN(s, sep, n) for n >= 1: at most n parts, the last one keeping any further separators. */
  function SplitN(s: string, sep: char, n: nat): (parts: seq<string>)
    requires n >= 1
    ensures 1 <= |parts| <= n
    decreases n
  {
    var two := SplitN2(s, sep);
    if n == 1 || |two| == 1 then [s] else [two[0]] + SplitN(two[1], sep, n - 1)
  }

  /** strings.FieldsFunc(s, r == sep): the non-empty pieces between separators. */
  function Fields(s: string, sep: char): seq<string> {
    NonEmpty(Split(s, sep))
  }

  function NonEmpty(parts: seq<string>): (r: seq<string>)
    ensures forall i :: 0 <= i < |r| ==> r[i] != "" && r[i] in parts
    ensures forall p :: p in parts && p != "" ==> p in r
    decreases |parts|
  {
    if |parts| == 0 then []
    else if parts[0] == "" then NonEmpty(parts[1..])
    else [parts[0]] + NonEmpty(parts[1..])
  }

  /** A trailing carriage return dropped, as bufio.ScanLines does. */
  function DropCR(line: string): string {
    if HasSuffix(line, "\r") then line[..|line| - 1] else line
  }

  /** bufio.ScanLines: lines split at '\n', a final '\r' dropped from each, and no empty last token. */
  function ScanLines(s: string): (lines: seq<string>)
    ensures |lines| == if Split(s, '\n')[|Split(s, '\n')| - 1] == "" then |Split(s, '\n')| - 1 else |Split(s, '\n')|
    ensures forall i :: 0 <= i < |lines| ==> lines[i] == DropCR(Split(s, '\n')[i])
  {
    var parts := Split(s, '\n');
    var kept := if parts[|parts| - 1] == "" then parts[..|parts| - 1] else parts;
    seq(|kept|, i requires 0 <= i < |kept| => DropCR(kept[i]))
  }

  predicate IsDigit(c: char) {
    '0' <= c <= '9'
  }

  function DigitChar(d: nat): (c: char)
    requires d < 10
    ensures IsDigit(c) && c as int - '0' as int == d
  {
    ('0' as int + d) as char
  }

  /** The decimal digits of a natural number, without leading zeros. */
  function NatToString(n: nat): (s: string)
    ensures |s| > 0 && forall i :: 0 <= i < |s| ==> IsDigit(s[i])
    decreases n
  {
    if n < 10 then [DigitChar(n)] else NatToString(n / 10) + [DigitChar(n % 10)]
  }

  /** strconv.Itoa */
  function Itoa(n: int): string {
    if n < 0 then "-" + NatToString(-n) else NatToString(n)
  }

  /** The value of a string of decimal digits, most significant first. */
  function DigitsValue(s: string): nat
    requires forall i :: 0 <= i < |s| ==> IsDigit(s[i])
    decreases |s|
  {
    if |s| == 0 then 0 else DigitsValue(s[..|s| - 1]) * 10 + DigitValue(s[|s| - 1])
  }

  function DigitValue(c: char): nat
    requires IsDigit(c)
  {
    c as int - '0' as int
  }

  predicate AllDigits(s: string) {
    |s| > 0 && forall i :: 0 <= i < |s| ==> IsDigit(s[i])
  }

  const MinInt64: int := -0x8000_0000_0000_0000
  const MaxInt64: int := 0x7FFF_FFFF_FFFF_FFFF

  /** The values of Go's int on a 64-bit platform. */
  predicate InInt64(n: int) {
    MinInt64 <= n <= MaxInt64
  }

  /** Two's-complement wrap-around of an int64 result. */
  function Wrap64(n: int): (r: int)
    ensures InInt64(r)
    ensures InInt64(n) ==> r == n
    ensures (r - n) % 0x1_0000_0000_0000_0000 == 0
  {
    (n - MinInt64) % 0x1_0000_0000_0000_0000 + MinInt64
  }

  /**
   * strconv.Atoi: an optional sign followed by at least one digit, whose value fits in a
   * 64-bit int; anything else, a value out of range included, is an error.
   */
  function Atoi(s: string): (r: Option<int>)
    ensures r.Some? ==> InInt64(r.value)
  {
    var v: Option<int> :=
      if |s| > 0 && (s[0] == '-' || s[0] == '+') then
        if AllDigits(s[1..]) then
          var d: int := DigitsValue(s[1..]);
          Some(if s[0] == '-' then -d else d)
        else None
      else if AllDigits(s) then Some(DigitsValue(s))
      else None;
    if v.Some? && InInt64(v.value) then v else None
  }

  lemma {:induction false} DigitsOfNat(n: nat)
    ensures DigitsValue(NatToString(n)) == n
    decreases n
  {
    if n >= 10 {
      DigitsOfNat(n / 10);
      var s := NatToString(n);
      assert s[..|s| - 1] == NatToString(n / 10);
    }
  }

  function Pow10(n: nat): (p: nat)
    ensures p > 0
  {
    if n == 0 then 1 else 10 * Pow10(n - 1)
  }

  /** A numeral without a leading zero is worth at least 10 to the power of its length less one. */
  lemma {:induction false} DigitsAtLeast(s: string)
    requires AllDigits(s) && s[0] != '0'
    ensures DigitsValue(s) >= Pow10(|s| - 1)
    decreases |s|
  {
    if |s| > 1 {
      var t := s[..|s| - 1];
      assert AllDigits(t) && t[0] == s[0] by {
        assert forall i :: 0 <= i < |t| ==> t[i] == s[i];
      }
      DigitsAtLeast(t);
    }
  }

  /** Twenty or more digits without a leading zero overflow int64, so Atoi fails on them, signed or not. */
  lemma AtoiRejectsLong(s: string)
    requires AllDigits(s) && s[0] != '0' && |s| >= 20
    ensures Atoi(s) == None && Atoi("+" + s) == None && Atoi("-" + s) == None
  {
    DigitsAtLeast(s);
    PowMonotone(19, |s| - 1);
    assert Pow10(19) == 10000000000000000000 by {
      assert Pow10(0) == 1;
      assert Pow10(1) == 10;
      assert Pow10(2) == 100;
      assert Pow10(3) == 1000;
      assert Pow10(4) == 10000;
      assert Pow10(5) == 100000;
      assert Pow10(6) == 1000000;
      assert Pow10(7) == 10000000;
      assert Pow10(8) == 100000000;
      assert Pow10(9) == 1000000000;
      assert Pow10(10) == 10000000000;
      assert Pow10(11) == 100000000000;
      assert Pow10(12) == 1000000000000;
      assert Pow10(13) == 10000000000000;
      assert Pow10(14) == 100000000000000;
      assert Pow10(15) == 1000000000000000;
      assert Pow10(16) == 10000000000000000;
      assert Pow10(17) == 100000000000000000;
      assert Pow10(18) == 1000000000000000000;
      assert Pow10(19) == 10000000000000000000;
    }
    assert DigitsValue(s) > MaxInt64 && -(DigitsValue(s) as int) < MinInt64;
    assert IsDigit(s[0]);
    assert ("+" + s)[1..] == s && ("-" + s)[1..] == s;
  }

  lemma {:induction false} PowMonotone(m: nat, n: nat)
    requires m <= n
    ensures Pow10(m) <= Pow10(n)
    decreases n
  {
    if m < n {
      PowMonotone(m, n - 1);
    }
  }

  /** A signed or unsigned numeral reads as its value exactly when that value fits in int64. */
  lemma AtoiNumeral(sign: string, s: string)
    requires AllDigits(s) && (sign == "" || sign == "+" || sign == "-")
    ensures var v: int := if sign == "-" then -(DigitsValue(s) as int) else DigitsValue(s);
      Atoi(sign + s) == if InInt64(v) then Some(v) else None
  {
    if sign != "" {
      assert (sign + s)[1..] == s;
    } else {
      assert sign + s == s;
      assert IsDigit(s[0]);
    }
  }

  /** Atoi reads back what Itoa writes. */
  lemma AtoiItoa(n: int)
    requires InInt64(n)
    ensures Atoi(Itoa(n)) == Some(n)
  {
    var s := Itoa(n);
    if n < 0 {
      DigitsOfNat(-n);
      assert s[1..] == NatToString(-n);
    } else {
      DigitsOfNat(n);
    }
  }
}
