/** The string operations the address book uses: `str.lower`, the `in`
    operator on strings and `str.join`. */
module Text {

  /** `str.lower` on one character, ASCII letters only: an upper-case
      letter becomes the same letter in lower case, and every other
      character is kept. */
  function LowerChar(c: char): (r: char)
    ensures !('A' <= r <= 'Z')
    ensures 'A' <= c <= 'Z' ==> 'a' <= r <= 'z' && r as int - 'a' as int == c as int - 'A' as int
    ensures !('A' <= c <= 'Z') ==> r == c
  {
    if 'A' <= c <= 'Z' then (c as int + 32) as char else c
  }

  /** `str.lower` over ASCII: upper-case Latin letters become lower case,
      every other character is kept. */
  function Lower(s: string): (r: string)
    ensures |r| == |s|
    ensures forall i :: 0 <= i < |s| ==> r[i] == LowerChar(s[i])
    ensures forall i :: 0 <= i < |r| ==> !('A' <= r[i] <= 'Z')
  {
    seq(|s|, i requires 0 <= i < |s| => LowerChar(s[i]))
  }

  /** `p` occurs in `s` starting at position `i`. */
  predicate OccursAt(p: string, s: string, i: int)
  {
    0 <= i && i + |p| <= |s| && s[i..i + |p|] == p
  }

  /** Python's `p in s` on strings, scanning `s` left to right; the empty
      string occurs in every string. */
  predicate Contains(p: string, s: string)
    ensures |p| == 0 ==> Contains(p, s)
    ensures Contains(p, s) ==> |p| <= |s|
    decreases |s|
  {
    (|p| <= |s| && s[..|p|] == p) || (|s| > 0 && Contains(p, s[1..]))
  }

  /** The scan agrees with the textbook definition of a substring. */
  lemma {:induction false} ContainsIff(p: string, s: string)
    ensures Contains(p, s) <==> exists i :: OccursAt(p, s, i)
    decreases |s|
  {
    if |p| <= |s| && s[..|p|] == p {
      assert OccursAt(p, s, 0);
    } else if |s| > 0 {
      ContainsIff(p, s[1..]);
      if Contains(p, s[1..]) {
        var i :| OccursAt(p, s[1..], i);
        assert s[i + 1..i + 1 + |p|] == s[1..][i..i + |p|];
        assert OccursAt(p, s, i + 1);
      }
      if i :| OccursAt(p, s, i) {
        assert i != 0;
        assert s[1..][i - 1..i - 1 + |p|] == s[i..i + |p|];
        assert OccursAt(p, s[1..], i - 1);
      }
    }
  }

  /** A pattern with a character the text lacks does not occur in it. */
  lemma MissingCharNotContained(p: string, s: string, k: nat)
    requires k < |p| && p[k] !in s
    ensures !Contains(p, s)
  {
  }

  /** A string occurs in any text built around it. */
  lemma ContainsMiddle(a: string, p: string, b: string)
    ensures Contains(p, a + p + b)
  {
    assert (a + p + b)[|a|..|a| + |p|] == p;
    assert OccursAt(p, a + p + b, |a|);
    ContainsIff(p, a + p + b);
  }

  /** A text that occurs still occurs once more text is appended. */
  lemma ContainsExtend(p: string, s: string, z: string)
    requires Contains(p, s)
    ensures Contains(p, s + z)
  {
    ContainsIff(p, s);
    var i :| OccursAt(p, s, i);
    assert (s + z)[i..i + |p|] == s[i..i + |p|];
    assert OccursAt(p, s + z, i);
    ContainsIff(p, s + z);
  }

  /** Two pieces that meet at a seam, `p` ending one part of a text and `q`
      opening the next, occur together. */
  lemma ContainsSeam(x: string, p: string, q: string, y: string)
    ensures Contains(p + q, (x + p) + (q + y))
  {
    assert (x + p) + (q + y) == x + (p + q) + y;
    ContainsMiddle(x, p + q, y);
  }

  /** Python's `sep.join(parts)`: no parts give the empty text; otherwise
      the text opens with the first part and closes with the last. */
  function Join(parts: seq<string>, sep: string): (r: string)
    ensures parts == [] ==> r == ""
    ensures parts != [] ==> |parts[0]| <= |r| && r[..|parts[0]|] == parts[0]
    ensures parts != [] ==> |parts[|parts| - 1]| <= |r| && r[|r| - |parts[|parts| - 1]|..] == parts[|parts| - 1]
  {
    if |parts| == 0 then ""
    else if |parts| == 1 then parts[0]
    else parts[0] + sep + Join(parts[1..], sep)
  }

  /** Where part `k` sits in the joined text. */
  lemma {:induction false} JoinPartAt(parts: seq<string>, sep: string, k: nat) returns (i: nat)
    requires k < |parts|
    ensures OccursAt(parts[k], Join(parts, sep), i)
    decreases |parts|
  {
    if k == 0 {
      i := 0;
    } else {
      var front, rest := parts[0] + sep, Join(parts[1..], sep);
      var j := JoinPartAt(parts[1..], sep, k - 1);
      assert Join(parts, sep) == front + rest;
      assert (front + rest)[|front| + j..|front| + j + |parts[k]|] == rest[j..j + |parts[k]|];
      i := |front| + j;
    }
  }

  /** Every part shows up in the joined text. */
  lemma JoinShowsPart(parts: seq<string>, sep: string, k: nat)
    requires k < |parts|
    ensures Contains(parts[k], Join(parts, sep))
  {
    var i := JoinPartAt(parts, sep, k);
    ContainsIff(parts[k], Join(parts, sep));
  }

  /** A join of parts that are all non-empty is empty only when there are
      no parts. */
  lemma JoinEmptyIff(parts: seq<string>, sep: string)
    requires forall k :: 0 <= k < |parts| ==> parts[k] != ""
    ensures Join(parts, sep) == "" <==> parts == []
  {
  }
}
