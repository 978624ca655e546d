/** Splitting and joining strings on a separator character: the tools the
    model uses to read a request URL back into its path segments. */
module Text {

  /** Concatenation regroups freely; used to line up a format string with
      the segments it is built from. */
  lemma Assoc<T>(a: seq<T>, b: seq<T>, c: seq<T>)
    ensures a + (b + c) == a + b + c
  {
  }

  predicate HasPrefix(s: string, p: string) {
    |p| <= |s| && s[..|p|] == p
  }

  /** Position of the first occurrence of `c` in `s`. */
  function IndexOf(s: string, c: char): (i: nat)
    requires c in s
    ensures i < |s| && s[i] == c && c !in s[..i]
  {
    if s[0] == c then 0
    else
      assert c in s[1..] by {
        var k :| 0 <= k < |s| && s[k] == c;
        assert s[1..][k - 1] == c;
      }
      var j := IndexOf(s[1..], c);
      assert s[..j + 1] == [s[0]] + s[1..][..j];
      1 + j
  }

  /** The only position of `c` that has no earlier `c` is `IndexOf(s, c)`. */
  lemma {:induction false} IndexOfUnique(s: string, c: char, k: nat)
    requires k < |s| && s[k] == c && c !in s[..k]
    ensures c in s && IndexOf(s, c) == k
  {
    if k > 0 {
      assert s[0] == s[..k][0];
      assert s[1..][..k - 1] == s[1..k];
      assert forall i :: 0 <= i < k - 1 ==> s[1..k][i] == s[..k][i + 1];
      IndexOfUnique(s[1..], c, k - 1);
    }
  }

  /** The parts joined with one `sep` between neighbours. */
  function Join(parts: seq<string>, sep: char): string
  {
    if |parts| == 0 then []
    else if |parts| == 1 then parts[0]
    else parts[0] + [sep] + Join(parts[1..], sep)
  }

  /** The maximal `sep`-free pieces of `s`, left to right; joining them
      gives `s` back. */
  function Split(s: string, sep: char): (parts: seq<string>)
    ensures |parts| >= 1
    ensures forall i :: 0 <= i < |parts| ==> sep !in parts[i]
    ensures Join(parts, sep) == s
    decreases |s|
  {
    if sep !in s then [s]
    else
      var i := IndexOf(s, sep);
      var rest := Split(s[i + 1..], sep);
      assert ([s[..i]] + rest)[1..] == rest;
      assert s == s[..i] + [sep] + s[i + 1..];
      [s[..i]] + rest
  }

  /** Joining at least two parts puts the first part, then `sep`, then
      the join of the others. */
  lemma JoinFirst(parts: seq<string>, sep: char)
    requires |parts| > 1
    ensures var s := Join(parts, sep);
      var n := |parts[0]|;
      && n < |s| && s[n] == sep && s[..n] == parts[0] && s[n + 1..] == Join(parts[1..], sep)
  {
    var s := Join(parts, sep);
    var n := |parts[0]|;
    assert s == parts[0] + [sep] + Join(parts[1..], sep);
  }

  /** Splitting undoes joining, as long as no part contains the separator. */
  lemma {:induction false} SplitJoin(parts: seq<string>, sep: char)
    requires |parts| >= 1
    requires forall i :: 0 <= i < |parts| ==> sep !in parts[i]
    ensures Split(Join(parts, sep), sep) == parts
    decreases |parts|
  {
    if |parts| > 1 {
      var s := Join(parts, sep);
      var n := |parts[0]|;
      JoinFirst(parts, sep);
      IndexOfUnique(s, sep, n);
      SplitJoin(parts[1..], sep);
      assert Split(s, sep) == [s[..n]] + Split(s[n + 1..], sep);
      assert parts == [parts[0]] + parts[1..];
    }
  }
}
