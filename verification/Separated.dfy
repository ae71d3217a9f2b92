/** Texts joined by a separator character, and split at it: case ids, case variants and the
    canonical user stream are all built this way. */
module Separated {

  predicate Free(s: string, sep: char) {
    forall i :: 0 <= i < |s| ==> s[i] != sep
  }

  predicate AllFree(parts: seq<string>, sep: char) {
    forall i :: 0 <= i < |parts| ==> Free(parts[i], sep)
  }

  function Join(parts: seq<string>, sep: char): string {
    if parts == [] then ""
    else if |parts| == 1 then parts[0]
    else parts[0] + ([sep] + Join(parts[1..], sep))
  }

  /** Where the separator next stands at or after i; the end of the text if nowhere. */
  function Find(s: string, sep: char, i: nat): (j: nat)
    requires i <= |s|
    ensures i <= j <= |s|
    decreases |s| - i
  {
    if i == |s| || s[i] == sep then i else Find(s, sep, i + 1)
  }

  function Split(s: string, sep: char): (parts: seq<string>)
    ensures parts != []
    decreases |s|
  {
    var j := Find(s, sep, 0);
    if j == |s| then [s] else [s[..j]] + Split(s[j + 1..], sep)
  }

  lemma {:induction false} FindStops(s: string, sep: char, i: nat)
    requires i <= |s|
    ensures var j := Find(s, sep, i);
      && (forall k :: i <= k < j ==> s[k] != sep)
      && (j < |s| ==> s[j] == sep)
    decreases |s| - i
  {
    if i < |s| && s[i] != sep {
      FindStops(s, sep, i + 1);
    }
  }

  lemma {:induction false} FindsFirst(s: string, sep: char, i: nat, j: nat)
    requires i <= j <= |s| && (j < |s| ==> s[j] == sep)
    requires forall k :: i <= k < j ==> s[k] != sep
    ensures Find(s, sep, i) == j
    decreases j - i
  {
    if i < j {
      FindsFirst(s, sep, i + 1, j);
    }
  }

  lemma {:induction false} SplitIsFree(s: string, sep: char)
    ensures AllFree(Split(s, sep), sep)
    decreases |s|
  {
    FindStops(s, sep, 0);
    var j := Find(s, sep, 0);
    if j < |s| {
      SplitIsFree(s[j + 1..], sep);
    }
  }

  /** Joining what was split gives the text back. */
  lemma {:induction false} JoinOfSplit(s: string, sep: char)
    ensures Join(Split(s, sep), sep) == s
    decreases |s|
  {
    FindStops(s, sep, 0);
    var j := Find(s, sep, 0);
    if j < |s| {
      var rest := Split(s[j + 1..], sep);
      JoinOfSplit(s[j + 1..], sep);
      assert Split(s, sep)[1..] == rest;
      assert s == s[..j] + ([s[j]] + s[j + 1..]);
    }
  }

  /** Splitting what was joined gives the parts back, if no part holds the separator. */
  lemma {:induction false} SplitOfJoin(parts: seq<string>, sep: char)
    requires parts != [] && AllFree(parts, sep)
    ensures Split(Join(parts, sep), sep) == parts
  {
    var s := Join(parts, sep);
    var j := |parts[0]|;
    if |parts| == 1 {
      FindsFirst(s, sep, 0, j);
    } else {
      assert s[..j] == parts[0] && s[j] == sep && s[j + 1..] == Join(parts[1..], sep);
      FindsFirst(s, sep, 0, j);
      SplitOfJoin(parts[1..], sep);
    }
  }

  lemma {:induction false} JoinAppends(a: seq<string>, b: seq<string>, sep: char)
    requires a != [] && b != []
    ensures Join(a + b, sep) == Join(a, sep) + ([sep] + Join(b, sep))
  {
    if |a| == 1 {
      assert (a + b)[1..] == b;
    } else {
      assert (a + b)[1..] == a[1..] + b;
      JoinAppends(a[1..], b, sep);
      Associate(a[0], [sep], Join(a[1..], sep), [sep] + Join(b, sep));
    }
  }

  lemma Associate(a: string, b: string, c: string, d: string)
    ensures a + (b + (c + d)) == a + (b + c) + d
  {
  }
}
