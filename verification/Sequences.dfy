/** Lists and texts, as several modules use them. */
module Sequences {

  ghost predicate Distinct<T(!new)>(items: seq<T>) {
    forall i, j :: 0 <= i < j < |items| ==> items[i] != items[j]
  }

  /** The first item with this key, or the length if there is none. */
  function IndexBy<T>(items: seq<T>, keyOf: T -> string, key: string): (i: nat)
    ensures i <= |items| && (i < |items| ==> keyOf(items[i]) == key)
    ensures forall j :: 0 <= j < i ==> keyOf(items[j]) != key
  {
    if items == [] || keyOf(items[0]) == key then 0 else 1 + IndexBy(items[1..], keyOf, key)
  }

  predicate HexDigit(c: char) {
    '0' <= c <= '9' || 'a' <= c <= 'f' || 'A' <= c <= 'F'
  }

  // ----- texts in parts -----

  /** The parts of a text between its separators. */
  function Split(s: string, separators: set<char>): (parts: seq<string>)
    ensures parts != []
  {
    if s == "" then [""]
    else
      var rest := Split(s[1..], separators);
      if s[0] in separators then [""] + rest else [[s[0]] + rest[0]] + rest[1..]
  }

  function Join(parts: seq<string>, separator: string): string {
    if parts == [] then "" else if |parts| == 1 then parts[0] else parts[0] + separator + Join(parts[1..], separator)
  }

  predicate Free(s: string, separators: set<char>) {
    forall i :: 0 <= i < |s| ==> s[i] !in separators
  }

  lemma {:induction false} SplitPrefix(x: string, s: string, separators: set<char>)
    requires Free(x, separators)
    ensures Split(x + s, separators) == [x + Split(s, separators)[0]] + Split(s, separators)[1..]
  {
    if x == "" {
      assert x + s == s && x + Split(s, separators)[0] == Split(s, separators)[0];
    } else {
      assert (x + s)[1..] == x[1..] + s;
      SplitPrefix(x[1..], s, separators);
      assert [x[0]] + (x[1..] + Split(s, separators)[0]) == x + Split(s, separators)[0];
    }
  }

  /** Parts without separators come back from their joined text. */
  lemma {:induction false} SplitJoin(parts: seq<string>, c: char, separators: set<char>)
    requires parts != [] && c in separators && forall i :: 0 <= i < |parts| ==> Free(parts[i], separators)
    ensures Split(Join(parts, [c]), separators) == parts
  {
    var first := parts[0];
    if |parts| == 1 {
      SplitPrefix(first, "", separators);
      assert first + "" == first && parts == [first];
    } else {
      var rest := [c] + Join(parts[1..], [c]);
      SplitJoin(parts[1..], c, separators);
      assert rest[1..] == Join(parts[1..], [c]) && Split(rest, separators) == [""] + parts[1..];
      SplitPrefix(first, rest, separators);
      assert first + [c] + Join(parts[1..], [c]) == first + rest && first + "" == first;
    }
  }

  lemma {:induction false} SplitFree(s: string, separators: set<char>, k: nat)
    requires k < |Split(s, separators)|
    ensures Free(Split(s, separators)[k], separators)
  {
    if s != "" {
      var rest := Split(s[1..], separators);
      if s[0] in separators {
        if k > 0 { SplitFree(s[1..], separators, k - 1); }
      } else {
        SplitFree(s[1..], separators, k);
      }
    }
  }

  /** Joining the parts at the only separator gives the text back. */
  lemma {:induction false} JoinSplit(s: string, c: char)
    ensures Join(Split(s, {c}), [c]) == s
  {
    if s != "" {
      JoinSplit(s[1..], c);
      var parts, rest := Split(s, {c}), Split(s[1..], {c});
      assert s == [s[0]] + s[1..];
      if s[0] == c {
        assert parts[1..] == rest;
      } else {
        assert parts[1..] == rest[1..];
      }
    }
  }
}
