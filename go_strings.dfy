/**
 * The few functions of Go's `strings` package that the service relies on:
 * white-space trimming, lower-casing, case-insensitive comparison,
 * substring search and splitting on a separator. Case mapping covers ASCII letters only.
 */
module GoStrings {

  /** Go's unicode.IsSpace on the Latin-1 range: '\t', '\n', '\v', '\f', '\r', ' ', U+0085 and U+00A0. */
  predicate IsSpace(c: char) {
    var code := c as int;
    (0x09 <= code <= 0x0D) || code == 0x20 || code == 0x85 || code == 0xA0
  }

  /** Drops leading white space. */
  function TrimLeft(s: string): (r: string)
    ensures |r| <= |s| && r == s[|s| - |r|..]
    ensures forall i :: 0 <= i < |s| - |r| ==> IsSpace(s[i])
    ensures |r| > 0 ==> !IsSpace(r[0])
  {
    if |s| > 0 && IsSpace(s[0]) then TrimLeft(s[1..]) else s
  }

  /** Drops trailing white space. */
  function TrimRight(s: string): (r: string)
    ensures |r| <= |s| && r == s[..|r|]
    ensures forall i :: |r| <= i < |s| ==> IsSpace(s[i])
    ensures |r| > 0 ==> !IsSpace(r[|r| - 1])
  {
    if |s| > 0 && IsSpace(s[|s| - 1]) then TrimRight(s[..|s| - 1]) else s
  }

  /** strings.TrimSpace: drops white space at both ends. */
  function TrimSpace(s: string): (r: string)
  {
    TrimRight(TrimLeft(s))
  }

  /** A trimmed string is empty exactly when the input is white space only. */
  lemma TrimSpaceEmpty(s: string)
    ensures TrimSpace(s) == "" <==> forall i :: 0 <= i < |s| ==> IsSpace(s[i])
  {
    var l := TrimLeft(s);
    if TrimSpace(s) == "" {
      assert |l| == 0;
    } else {
      assert |l| > 0 && !IsSpace(l[0]);
      assert s[|s| - |l|] == l[0];
    }
  }

  /** A trimmed string neither starts nor ends with white space. */
  lemma TrimSpaceEnds(s: string)
    ensures var r := TrimSpace(s);
      |r| <= |s| && (|r| > 0 ==> !IsSpace(r[0]) && !IsSpace(r[|r| - 1]))
  {
    var l := TrimLeft(s);
    if |TrimRight(l)| > 0 {
      assert TrimRight(l)[0] == l[0];
    }
  }

  /** A trimmed string is the slice of its input that starts after the leading white space. */
  lemma TrimSpaceSlice(s: string)
    ensures var r := TrimSpace(s); var k := |s| - |TrimLeft(s)|;
      k + |r| <= |s| && r == s[k..k + |r|]
  {
    TrimmedParts(s);
    PrefixOfSuffix(s, TrimLeft(s), TrimSpace(s));
  }

  /** TrimSpace keeps a prefix of what TrimLeft keeps, which is a suffix of the input. */
  lemma TrimmedParts(s: string)
    ensures var l := TrimLeft(s); var r := TrimSpace(s);
      |l| <= |s| && l == s[|s| - |l|..] && |r| <= |l| && r == l[..|r|]
  {
    assert TrimSpace(s) == TrimRight(TrimLeft(s));
  }

  /** A prefix `r` of a suffix `l` of `s` is the slice of `s` where `l` starts. */
  lemma PrefixOfSuffix(s: string, l: string, r: string)
    requires |l| <= |s| && l == s[|s| - |l|..] && |r| <= |l| && r == l[..|r|]
    ensures |s| - |l| + |r| <= |s| && r == s[|s| - |l|..|s| - |l| + |r|]
  {
  }

  /** Trimming a trimmed string changes nothing. */
  lemma TrimSpaceIdempotent(s: string)
    ensures TrimSpace(TrimSpace(s)) == TrimSpace(s)
  {
    var r := TrimSpace(s);
    TrimSpaceEnds(s);
    if |r| > 0 {
      assert TrimLeft(r) == r;
      assert TrimRight(r) == r;
    }
  }

  /** ASCII lower-casing of one character. */
  function LowerChar(c: char): (r: char)
    ensures 'A' <= c <= 'Z' ==> r as int == c as int + 32
    ensures !('A' <= c <= 'Z') ==> r == c
  {
    if 'A' <= c <= 'Z' then (c as int + 32) as char else c
  }

  /** strings.ToLower restricted to ASCII letters. */
  function ToLower(s: string): (r: string)
    ensures |r| == |s|
    ensures forall i :: 0 <= i < |s| ==> r[i] == LowerChar(s[i])
  {
    seq(|s|, i requires 0 <= i < |s| => LowerChar(s[i]))
  }

  /** Lower-casing twice is lower-casing once. */
  lemma ToLowerIdempotent(s: string)
    ensures ToLower(ToLower(s)) == ToLower(s)
  {
  }

  /** strings.EqualFold: equality under (ASCII) case folding. */
  predicate EqualFold(a: string, b: string) {
    ToLower(a) == ToLower(b)
  }

  /** `sub` occurs in `s` starting at index `i`. */
  predicate OccursAt(s: string, sub: string, i: int) {
    0 <= i <= |s| - |sub| && s[i..i + |sub|] == sub
  }

  /** strings.Contains: `sub` occurs somewhere in `s`. */
  predicate Contains(s: string, sub: string) {
    exists i :: 0 <= i <= |s| && OccursAt(s, sub, i)
  }

  /** A string contains whatever is written inside it, and the empty string contains only "". */
  lemma ContainsPart(x: string, sub: string, y: string)
    ensures Contains(x + sub + y, sub)
    ensures Contains("", sub) <==> sub == ""
  {
    var s := x + sub + y;
    assert OccursAt(s, sub, |x|) by {
      assert s[|x|..|x| + |sub|] == sub;
    }
    if Contains("", sub) {
      var i :| 0 <= i <= 0 && OccursAt("", sub, i);
    }
    if sub == "" {
      assert OccursAt("", sub, 0);
    }
  }

  /** What `c` contains, a string with `c` inside it contains. */
  lemma ContainsWithin(head: string, c: string, tail: string, p: string)
    ensures Contains(c, p) ==> Contains(head + c + tail, p)
  {
    if Contains(c, p) {
      var s := head + c + tail;
      var j :| 0 <= j <= |c| && OccursAt(c, p, j);
      assert s[|head| + j..|head| + j + |p|] == c[j..j + |p|];
      assert OccursAt(s, p, |head| + j);
    }
  }

  /**
   * When `head` lacks the first character of `p` and `p` does not end in
   * ')', an occurrence of `p` in `head + c + ")"` lies inside `c`.
   */
  lemma ContainsOnlyWithin(head: string, c: string, p: string)
    requires |p| > 0 && Lacks(head, p[0]) && p[|p| - 1] != ')'
    ensures Contains(head + c + ")", p) ==> Contains(c, p)
  {
    var s := head + c + ")";
    if Contains(s, p) {
      var i :| 0 <= i <= |s| && OccursAt(s, p, i);
      assert s[i] == p[0];
      assert i >= |head|;
      assert s[i + |p| - 1] == p[|p| - 1];
      assert i + |p| <= |head| + |c|;
      assert c[i - |head|..i - |head| + |p|] == s[i..i + |p|];
      assert OccursAt(c, p, i - |head|);
    }
  }

  /** `s` has no character `x`. */
  predicate Lacks(s: string, x: char) {
    forall j :: 0 <= j < |s| ==> s[j] != x
  }

  lemma LacksJoin(a: string, b: string, x: char)
    requires Lacks(a, x) && Lacks(b, x)
    ensures Lacks(a + b, x)
  {
    forall j | 0 <= j < |a + b| ensures (a + b)[j] != x {
      if j >= |a| {
        assert (a + b)[j] == b[j - |a|];
      }
    }
  }

  /** The characters of an occurrence are those of the pattern. */
  lemma OccurrenceAt(s: string, p: string, i: int, j: int)
    requires OccursAt(s, p, i) && 0 <= j < |p|
    ensures s[i + j] == p[j]
  {
    assert s[i..i + |p|][j] == s[i + j];
  }

  /** A slice of `head + c + tail` that lies within `c` is a slice of `c`. */
  lemma SliceInside(head: string, c: string, tail: string, lo: int, hi: int)
    requires |head| <= lo <= hi <= |head| + |c|
    ensures (head + c + tail)[lo..hi] == c[lo - |head|..hi - |head|]
  {
    var x := (head + c + tail)[lo..hi];
    var y := c[lo - |head|..hi - |head|];
    forall j | 0 <= j < |x| ensures x[j] == y[j] {
      assert x[j] == (head + c + tail)[lo + j];
    }
  }

  /**
   * When `head` and `tail` both lack a character of `p`, `p` has neither
   * the last character of `head` nor the first of `tail`, an occurrence of
   * `p` in `head + c + tail` lies inside `c`.
   */
  lemma ContainsOnlyInside(head: string, c: string, tail: string, p: string, k: nat)
    requires k < |p| && Lacks(head, p[k]) && Lacks(tail, p[k])
    requires |head| > 0 ==> Lacks(p, head[|head| - 1])
    requires |tail| > 0 ==> Lacks(p, tail[0])
    ensures Contains(head + c + tail, p) ==> Contains(c, p)
  {
    var s := head + c + tail;
    if Contains(s, p) {
      var i :| 0 <= i <= |s| && OccursAt(s, p, i);
      assert s[i + k] == p[k];
      if i < |head| < i + |p| {
        OccurrenceAt(s, p, i, |head| - 1 - i);
      }
      if i < |head| + |c| < i + |p| {
        OccurrenceAt(s, p, i, |head| + |c| - i);
      }
      assert |head| <= i && i + |p| <= |head| + |c|;
      SliceInside(head, c, tail, i, i + |p|);
      assert OccursAt(c, p, i - |head|);
    }
  }

  /**
   * strings.Split with a one-character separator: the pieces between
   * separators, always at least one (Split("", c) is [""]).
   */
  function Split(s: string, sep: char): (parts: seq<string>)
    ensures |parts| >= 1
    decreases |s|
  {
    if |s| == 0 then [""]
    else
      var rest := Split(s[1..], sep);
      if s[0] == sep then [""] + rest else [[s[0]] + rest[0]] + rest[1..]
  }

  /** strings.Join with a one-character separator, the inverse of Split. */
  function JoinWith(parts: seq<string>, sep: char): (s: string)
    requires |parts| >= 1
    decreases |parts|
  {
    if |parts| == 1 then parts[0] else parts[0] + [sep] + JoinWith(parts[1..], sep)
  }

  /** Joining the pieces of a split with the same separator gives back the input. */
  lemma {:induction false} SplitJoin(s: string, sep: char)
    ensures JoinWith(Split(s, sep), sep) == s
    decreases |s|
  {
    if |s| > 0 {
      var rest := Split(s[1..], sep);
      SplitJoin(s[1..], sep);
      if s[0] == sep {
        assert Split(s, sep)[1..] == rest;
        assert s == [sep] + s[1..];
      } else if |rest| == 1 {
        assert s == [s[0]] + s[1..];
      } else {
        var parts := Split(s, sep);
        assert parts[1..] == rest[1..];
        assert s == [s[0]] + s[1..];
      }
    }
  }

  /** No piece of a split contains the separator. */
  lemma {:induction false} SplitPartsFree(s: string, sep: char)
    ensures forall i :: 0 <= i < |Split(s, sep)| ==> sep !in Split(s, sep)[i]
    decreases |s|
  {
    if |s| > 0 {
      SplitPartsFree(s[1..], sep);
      var rest := Split(s[1..], sep);
      if s[0] != sep {
        var parts := Split(s, sep);
        forall i | 0 <= i < |parts| ensures sep !in parts[i] {
          if i == 0 {
            assert parts[0] == [s[0]] + rest[0];
          } else {
            assert parts[i] == rest[i];
          }
        }
      }
    }
  }

  /** A string without the separator splits into itself. */
  lemma {:induction false} SplitNoSep(x: string, sep: char)
    requires sep !in x
    ensures Split(x, sep) == [x]
    decreases |x|
  {
    if |x| > 0 {
      SplitNoSep(x[1..], sep);
      assert [x[0]] + x[1..] == x;
    }
  }

  /** Splitting `x + sep + y`, where `x` has no separator, gives `x` followed by the pieces of `y`. */
  lemma {:induction false} SplitAt(x: string, sep: char, y: string)
    requires sep !in x
    ensures Split(x + [sep] + y, sep) == [x] + Split(y, sep)
    decreases |x|
  {
    var s := x + [sep] + y;
    if |x| == 0 {
      assert s[1..] == y;
    } else {
      assert s[1..] == x[1..] + [sep] + y;
      SplitAt(x[1..], sep, y);
      assert [x[0]] + x[1..] == x;
    }
  }

  /** strings.Join: the parts with `sep` between neighbours; "" for no parts. */
  function Join(parts: seq<string>, sep: string): (r: string)
    decreases |parts|
  {
    if |parts| == 0 then ""
    else if |parts| == 1 then parts[0]
    else Join(parts[..|parts| - 1], sep) + sep + parts[|parts| - 1]
  }

  /** The total length of the parts. */
  function SumLengths(parts: seq<string>): (n: nat)
    decreases |parts|
  {
    if |parts| == 0 then 0 else SumLengths(parts[..|parts| - 1]) + |parts[|parts| - 1]|
  }

  /** A prefix of the parts is no longer in total than all of them. */
  lemma {:induction false} SumLengthsPrefix(parts: seq<string>, k: nat)
    requires k <= |parts|
    ensures SumLengths(parts[..k]) <= SumLengths(parts)
    decreases |parts| - k
  {
    if k < |parts| {
      SumLengthsPrefix(parts, k + 1);
      assert parts[..k + 1][..k] == parts[..k];
    } else {
      assert parts[..k] == parts;
    }
  }

  /** The joined string holds every byte of the parts and one separator between each two. */
  lemma {:induction false} JoinLength(parts: seq<string>, sep: string)
    requires |parts| >= 1
    ensures |Join(parts, sep)| == SumLengths(parts) + |sep| * (|parts| - 1)
    decreases |parts|
  {
    if |parts| > 1 {
      JoinLength(parts[..|parts| - 1], sep);
    }
  }

  /** Appending a part to the right-nested join with a one-character separator. */
  lemma {:induction false} JoinWithSnoc(parts: seq<string>, sep: char, x: string)
    requires |parts| >= 1
    ensures JoinWith(parts + [x], sep) == JoinWith(parts, sep) + [sep] + x
    decreases |parts|
  {
    if |parts| > 1 {
      assert (parts + [x])[1..] == parts[1..] + [x];
      JoinWithSnoc(parts[1..], sep, x);
    }
  }

  /** With a one-character separator, Join and the inverse of Split agree. */
  lemma {:induction false} JoinOneChar(parts: seq<string>, sep: char)
    requires |parts| >= 1
    ensures Join(parts, [sep]) == JoinWith(parts, sep)
    decreases |parts|
  {
    if |parts| > 1 {
      var init := parts[..|parts| - 1];
      JoinOneChar(init, sep);
      JoinWithSnoc(init, sep, parts[|parts| - 1]);
      assert init + [parts[|parts| - 1]] == parts;
    }
  }

  /** strings.Join undoes strings.Split on the same one-character separator. */
  lemma SplitThenJoin(s: string, sep: char)
    ensures Join(Split(s, sep), [sep]) == s
  {
    JoinOneChar(Split(s, sep), sep);
    SplitJoin(s, sep);
  }

  /** The number of bytes UTF-8 needs for one character: 1 below U+0080, 2 below U+0800, 3 below U+10000, else 4. */
  function RuneLen(c: char): (n: nat)
    ensures 1 <= n <= 4
    ensures n == 1 <==> (c as int) < 0x80
  {
    var code := c as int;
    if code < 0x80 then 1 else if code < 0x800 then 2 else if code < 0x10000 then 3 else 4
  }

  /** Go's `len` on a string: its length in UTF-8 bytes. */
  function ByteLen(s: string): (n: nat)
  {
    if |s| == 0 then 0 else RuneLen(s[0]) + ByteLen(s[1..])
  }

  /** The byte length lies between one and four bytes per character, and is additive. */
  lemma {:induction false} ByteLenBounds(s: string)
    ensures |s| <= ByteLen(s) <= 4 * |s|
  {
    if |s| > 0 {
      ByteLenBounds(s[1..]);
    }
  }

  /** The byte length of a concatenation is the sum of the byte lengths. */
  lemma {:induction false} ByteLenAppend(a: string, b: string)
    ensures ByteLen(a + b) == ByteLen(a) + ByteLen(b)
  {
    if |a| > 0 {
      assert (a + b)[1..] == a[1..] + b;
      ByteLenAppend(a[1..], b);
    } else {
      assert a + b == b;
    }
  }

  /** Byte length and character count agree exactly on ASCII text. */
  lemma {:induction false} ByteLenAscii(s: string)
    ensures ByteLen(s) == |s| <==> forall i :: 0 <= i < |s| ==> (s[i] as int) < 0x80
  {
    if |s| > 0 {
      ByteLenAscii(s[1..]);
      ByteLenBounds(s[1..]);
      assert forall i :: 1 <= i < |s| ==> s[i] == s[1..][i - 1];
    }
  }

  /** The decimal digits of a natural number, as fmt's %d writes them. */
  function FormatNat(n: nat): (r: string)
    ensures |r| >= 1
    ensures forall i :: 0 <= i < |r| ==> '0' <= r[i] <= '9'
  {
    var digit := "0123456789"[n % 10];
    if n < 10 then [digit] else FormatNat(n / 10) + [digit]
  }

  /** fmt's %d of a signed integer: a minus sign before the digits of a negative one. */
  function FormatInt(n: int): (r: string)
    ensures |r| >= 1
    ensures r[0] == '-' <==> n < 0
  {
    if n < 0 then "-" + FormatNat(-n) else FormatNat(n)
  }
}
