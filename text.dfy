/**
 * Byte-string helpers used by main.go through the Go standard library:
 * searching for a byte, strings.TrimSpace, and splitting text into
 * newline-terminated lines.
 *
 * A Go string is a sequence of bytes; here a `string` holds one char per byte.
 */
module Text {

  /** The ASCII white space that strings.TrimSpace removes. */
  predicate IsSpace(c: char) {
    c == ' ' || c == '\t' || c == '\n' || c == '\U{B}' || c == '\U{C}' || c == '\r'
  }

  predicate AllSpace(s: string) {
    forall k :: 0 <= k < |s| ==> IsSpace(s[k])
  }

  /** Index of the first occurrence of `c` in `s`, or |s| when there is none. */
  function IndexOf(s: string, c: char): (k: nat)
    ensures k <= |s|
    ensures k < |s| ==> s[k] == c
    ensures forall j :: 0 <= j < k ==> s[j] != c
    ensures k == |s| <==> c !in s
  {
    if s == [] then 0
    else if s[0] == c then 0
    else 1 + IndexOf(s[1..], c)
  }

  /** The first occurrence of `c` in `x + [c] + y` is the one after `x`. */
  lemma IndexOfAfter(x: string, c: char, y: string)
    requires c !in x
    ensures IndexOf(x + [c] + y, c) == |x|
  {
    var s := x + [c] + y;
    assert forall j :: 0 <= j < |x| ==> s[j] == x[j];
    assert s[|x|] == c;
  }

  /** Every byte of s[lo..hi] is white space. */
  predicate SpaceBetween(s: string, lo: nat, hi: nat)
    requires lo <= hi <= |s|
  {
    forall m :: lo <= m < hi ==> IsSpace(s[m])
  }

  /** Where strings.TrimSpace's scan from the left stops: the first byte from `from` on that is not white space. */
  function TrimStart(s: string, from: nat): (start: nat)
    requires from <= |s|
    ensures from <= start <= |s| && SpaceBetween(s, from, start)
    ensures start < |s| ==> !IsSpace(s[start])
    decreases |s| - from
  {
    if from == |s| || !IsSpace(s[from]) then from else TrimStart(s, from + 1)
  }

  /** Where the scan from the right stops: just after the last byte before `stop` that is not white space. */
  function TrimStop(s: string, start: nat, stop: nat): (end: nat)
    requires start <= stop <= |s|
    ensures start <= end <= stop && SpaceBetween(s, end, stop)
    ensures start < end ==> !IsSpace(s[end - 1])
  {
    if stop == start || !IsSpace(s[stop - 1]) then stop else TrimStop(s, start, stop - 1)
  }

  /** strings.TrimSpace: drop leading and trailing white space. */
  function TrimSpace(s: string): (r: string)
    ensures |r| <= |s|
    ensures r == [] || (!IsSpace(r[0]) && !IsSpace(r[|r| - 1]))
  {
    var start := TrimStart(s, 0);
    s[start..TrimStop(s, start, |s|)]
  }

  /**
   * The result of TrimSpace is the unique slice s[i..j] that is surrounded by
   * white space only and neither starts nor ends with white space.
   */
  lemma TrimSpaceIsSlice(s: string, i: nat, j: nat)
    requires i <= j <= |s|
    requires SpaceBetween(s, 0, i) && SpaceBetween(s, j, |s|)
    requires i == j || (!IsSpace(s[i]) && !IsSpace(s[j - 1]))
    ensures TrimSpace(s) == s[i..j]
  {
    var start := TrimStart(s, 0);
    var stop := TrimStop(s, start, |s|);
    if i == j {
      assert start == |s|;
      assert stop == start;
    } else {
      assert start == i;
      assert stop == j;
    }
  }

  /** Lines joined with a "\n" terminator after each one. */
  function Unlines(ls: seq<string>): string {
    if ls == [] then "" else ls[0] + "\n" + Unlines(ls[1..])
  }

  lemma {:induction false} UnlinesAppend(a: seq<string>, b: seq<string>)
    ensures Unlines(a + b) == Unlines(a) + Unlines(b)
  {
    if a != [] {
      assert (a + b)[1..] == a[1..] + b;
      UnlinesAppend(a[1..], b);
    } else {
      assert a + b == b;
    }
  }

  lemma ConcatAssoc<T>(a: seq<T>, b: seq<T>, c: seq<T>, d: seq<T>)
    ensures a + (b + c + d) == a + b + c + d
  {
  }

  lemma UnlinesSnoc(ls: seq<string>, l: string)
    ensures Unlines(ls + [l]) == Unlines(ls) + (l + "\n")
  {
    UnlinesAppend(ls, [l]);
    assert Unlines([l]) == l + "\n" + Unlines([]);
  }

  /**
   * The lines of a text: each "\n" ends a line; text after the last "\n"
   * is one more (unterminated) line.
   */
  function Lines(s: string): seq<string>
    decreases |s|
  {
    if s == [] then []
    else
      var k := IndexOf(s, '\n');
      if k == |s| then [s] else [s[..k]] + Lines(s[k + 1..])
  }

  predicate NoNewline(l: string) {
    '\n' !in l
  }

  /** Splitting what Unlines joined gives back the same lines. */
  lemma {:induction false} LinesUnlines(ls: seq<string>)
    requires forall k :: 0 <= k < |ls| ==> NoNewline(ls[k])
    ensures Lines(Unlines(ls)) == ls
  {
    if ls != [] {
      var rest := Unlines(ls[1..]);
      IndexOfAfter(ls[0], '\n', rest);
      var s := Unlines(ls);
      assert s == ls[0] + ['\n'] + rest;
      assert s[..|ls[0]|] == ls[0];
      assert s[|ls[0]| + 1..] == rest;
      LinesUnlines(ls[1..]);
    }
  }
}
