/**
 * The string-joining helper of the inventory handlers: it sizes a byte
 * buffer for the result, then copies the first part and, for every later
 * part, the separator and the part, advancing a write cursor. The handlers
 * use it to glue SQL conditions with " AND ".
 */
module InventoryHandlers {
  import GoStrings

  /** Go's copy(b[at:], src) when `src` fits: the bytes at `at` become `src`, the rest stay. */
  method CopyAt(b: array<char>, at: nat, src: string)
    requires at + |src| <= b.Length
    modifies b
    ensures b[..at] == old(b[..at])
    ensures b[at..at + |src|] == src
    ensures b[at + |src|..] == old(b[at + |src|..])
  {
    for j := 0 to |src|
      invariant b[..at] == old(b[..at])
      invariant b[at..at + j] == src[..j]
      invariant b[at + |src|..] == old(b[at + |src|..])
    {
      b[at + j] := src[j];
    }
  }

  /**
   * join(s, sep): the same string strings.Join builds. The buffer is sized
   * to the sum of the part lengths plus one separator between each two
   * parts, and the cursor never passes its end.
   */
  method Join(s: seq<string>, sep: string) returns (r: string)
    ensures r == GoStrings.Join(s, sep)
    ensures |s| >= 1 ==> |r| == GoStrings.SumLengths(s) + |sep| * (|s| - 1)
  {
    if |s| == 0 {
      return "";
    }
    if |s| == 1 {
      return s[0];
    }
    var n := BufferSize(s, sep);
    GoStrings.JoinLength(s, sep);

    var b := new char[n];
    var bp := 0;
    PrefixFits(s, sep, 1);
    CopyAt(b, bp, s[0]);
    bp := bp + |s[0]|;
    assert b[..bp] == GoStrings.Join(s[..1], sep);
    var k := 1;
    while k < |s|
      invariant 1 <= k <= |s|
      invariant bp == |GoStrings.Join(s[..k], sep)| <= n
      invariant b[..bp] == GoStrings.Join(s[..k], sep)
    {
      JoinStep(s, sep, k);
      PrefixFits(s, sep, k + 1);
      CopySeparated(b, bp, sep, s[k]);
      bp := bp + |sep| + |s[k]|;
      k := k + 1;
    }
    assert s[..k] == s;
    r := b[..];
    assert r == b[..bp];
  }

  /** The buffer size: one separator between each two parts plus the lengths of the parts. */
  method BufferSize(s: seq<string>, sep: string) returns (n: int)
    requires |s| >= 1
    ensures n == GoStrings.SumLengths(s) + |sep| * (|s| - 1)
  {
    n := |sep| * (|s| - 1);
    for i := 0 to |s|
      invariant n == |sep| * (|s| - 1) + GoStrings.SumLengths(s[..i])
    {
      assert s[..i + 1][..i] == s[..i];
      n := n + |s[i]|;
    }
    assert s[..|s|] == s;
  }

  /** Copying the separator and then a part at the cursor extends what lies before the cursor by both. */
  method CopySeparated(b: array<char>, bp: nat, sep: string, part: string)
    requires bp + |sep| + |part| <= b.Length
    modifies b
    ensures b[..bp + |sep| + |part|] == old(b[..bp]) + sep + part
  {
    CopyAt(b, bp, sep);
    assert b[..bp + |sep|] == old(b[..bp]) + sep by {
      assert b[..bp + |sep|] == b[..bp] + b[bp..bp + |sep|];
    }
    ghost var withSep := b[..bp + |sep|];
    CopyAt(b, bp + |sep|, part);
    assert b[..bp + |sep| + |part|] == withSep + part by {
      assert b[..bp + |sep| + |part|] == b[..bp + |sep|] + b[bp + |sep|..bp + |sep| + |part|];
    }
  }

  /** The next separator and part extend the joined prefix. */
  lemma JoinStep(s: seq<string>, sep: string, k: nat)
    requires 1 <= k < |s|
    ensures GoStrings.Join(s[..k + 1], sep) == GoStrings.Join(s[..k], sep) + sep + s[k]
  {
    assert s[..k + 1][..k] == s[..k];
  }

  /** A joined prefix is no longer than the buffer sized for all parts. */
  lemma PrefixFits(s: seq<string>, sep: string, k: nat)
    requires 1 <= k <= |s|
    ensures |GoStrings.Join(s[..k], sep)| <= GoStrings.SumLengths(s) + |sep| * (|s| - 1)
  {
    GoStrings.JoinLength(s[..k], sep);
    GoStrings.SumLengthsPrefix(s, k);
    MulMonotone(|sep|, k - 1, |s| - 1);
  }

  lemma MulMonotone(a: nat, x: nat, y: nat)
    requires x <= y
    ensures a * x <= a * y
  {
    assert a * y == a * x + a * (y - x);
  }
}
