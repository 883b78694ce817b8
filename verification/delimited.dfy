/** Joining fields with a one-character separator, as `Array.prototype.join`
    does, and the splitting that undoes it. */
module Delimited {

  /** The number of characters in all fields together. */
  function TotalLength(fields: seq<string>): nat
    decreases |fields|
  {
    if |fields| == 0 then 0 else |fields[0]| + TotalLength(fields[1..])
  }

  /** The fields with `sep` between neighbours; no separator before the first
      field or after the last; the empty sequence joins to the empty string. */
  function Join(fields: seq<string>, sep: char): (s: string)
    ensures |fields| >= 1 ==> |s| == TotalLength(fields) + |fields| - 1
    decreases |fields|
  {
    if |fields| == 0 then ""
    else if |fields| == 1 then fields[0]
    else fields[0] + [sep] + Join(fields[1..], sep)
  }

  /** Position of the first `c` in `s`, or `|s|` when there is none. */
  function IndexOf(s: string, c: char): (i: nat)
    ensures i <= |s|
    ensures i < |s| ==> s[i] == c
    ensures forall j :: 0 <= j < i ==> s[j] != c
    decreases |s|
  {
    if |s| == 0 || s[0] == c then 0 else 1 + IndexOf(s[1..], c)
  }

  /** The maximal separator-free pieces of `s`, left to right. */
  function Split(s: string, sep: char): (fields: seq<string>)
    ensures |fields| >= 1
    ensures forall k :: 0 <= k < |fields| ==> sep !in fields[k]
    decreases |s|
  {
    var i := IndexOf(s, sep);
    if i == |s| then [s] else [s[..i]] + Split(s[i + 1..], sep)
  }

  /** Splitting and re-joining gives back any string. */
  lemma {:induction false} JoinSplit(s: string, sep: char)
    ensures Join(Split(s, sep), sep) == s
    decreases |s|
  {
    var i := IndexOf(s, sep);
    if i < |s| {
      var rest := s[i + 1..];
      JoinSplit(rest, sep);
      assert Split(s, sep)[1..] == Split(rest, sep);
      assert s == s[..i] + [sep] + rest;
    }
  }

  /** Joining separator-free fields and splitting gives back the fields. */
  lemma {:induction false} SplitJoin(fields: seq<string>, sep: char)
    requires |fields| >= 1
    requires forall k :: 0 <= k < |fields| ==> sep !in fields[k]
    ensures Split(Join(fields, sep), sep) == fields
    decreases |fields|
  {
    var s := Join(fields, sep);
    if |fields| == 1 {
      assert IndexOf(s, sep) == |s|;
    } else {
      var head := fields[0];
      var rest := Join(fields[1..], sep);
      assert s == head + [sep] + rest;
      var i := IndexOf(s, sep);
      assert s[|head|] == sep;
      assert i == |head|;
      assert s[..i] == head;
      assert s[i + 1..] == rest;
      SplitJoin(fields[1..], sep);
      assert fields == [head] + fields[1..];
    }
  }

  /** A string splits into one more field than it has separators. */
  lemma {:induction false} SplitCount(s: string, sep: char)
    ensures |Split(s, sep)| == multiset(s)[sep] + 1
    decreases |s|
  {
    var i := IndexOf(s, sep);
    if i == |s| {
      assert sep !in s;
    } else {
      var rest := s[i + 1..];
      SplitCount(rest, sep);
      assert s == s[..i] + [sep] + rest;
      assert sep !in s[..i];
      assert multiset(s) == multiset(s[..i]) + multiset{sep} + multiset(rest);
    }
  }

  /** Every character of a join is a character of some field or the separator. */
  lemma {:induction false} JoinChars(fields: seq<string>, sep: char, ok: char -> bool)
    requires ok(sep)
    requires forall k, j :: 0 <= k < |fields| && 0 <= j < |fields[k]| ==> ok(fields[k][j])
    ensures forall j :: 0 <= j < |Join(fields, sep)| ==> ok(Join(fields, sep)[j])
    decreases |fields|
  {
    if |fields| > 1 {
      var rest := Join(fields[1..], sep);
      JoinChars(fields[1..], sep, ok);
      var s := Join(fields, sep);
      forall j | 0 <= j < |s| ensures ok(s[j]) {
        if j < |fields[0]| {
          assert s[j] == fields[0][j];
        } else if j > |fields[0]| {
          assert s[j] == rest[j - |fields[0]| - 1];
        }
      }
    }
  }

  /** A join of non-empty fields starts with the first field's first character
      and ends with the last field's last character. */
  lemma {:induction false} JoinEnds(fields: seq<string>, sep: char)
    requires |fields| >= 1
    requires forall k :: 0 <= k < |fields| ==> |fields[k]| >= 1
    ensures |Join(fields, sep)| >= 1
    ensures Join(fields, sep)[0] == fields[0][0]
    ensures Join(fields, sep)[|Join(fields, sep)| - 1] == fields[|fields| - 1][|fields[|fields| - 1]| - 1]
    decreases |fields|
  {
    if |fields| > 1 {
      JoinEnds(fields[1..], sep);
    }
  }
}
