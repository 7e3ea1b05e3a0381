/** An optional value, as used by the parsers of this project. */
module Wrappers {
  datatype Option<+T> = None | Some(value: T)
}

/**
  The JavaScript string operations the signing code relies on, over strings
  of Unicode scalar values:
  - `Split(s, c)` is `s.split(c)` for a one-character separator;
  - `Join(parts, c)` is `parts.join(c)` for a one-character separator;
  - `RemoveAll(s, c)` is `s.replace(/c/g, '')`;
  - `Lower(s)` lower-cases ASCII letters (how HTTP header names are compared);
  - `LexLess(a, b)` is JavaScript's `a < b` on text of the Basic
    Multilingual Plane.
 */
module Text {

  /** The pieces of `s` between occurrences of `sep`; never empty, and
      `Split("", sep) == [""]`, as in JavaScript. */
  function Split(s: string, sep: char): (parts: seq<string>)
    ensures |parts| >= 1
    ensures forall p <- parts :: sep !in p
    ensures sep !in s ==> parts == [s]
    ensures |parts[0]| <= |s| && parts[0] == s[..|parts[0]|]
    decreases |s|
  {
    if |s| == 0 then [""]
    else
      var rest := Split(s[1..], sep);
      if s[0] == sep then [""] + rest
      else
        assert s == [s[0]] + s[1..];
        assert [s[0]] + rest[0] == s[..1 + |rest[0]|];
        [[s[0]] + rest[0]] + rest[1..]
  }

  /** `parts` with one `sep` between neighbours. */
  function Join(parts: seq<string>, sep: char): string
    decreases |parts|
  {
    if |parts| == 0 then ""
    else if |parts| == 1 then parts[0]
    else parts[0] + [sep] + Join(parts[1..], sep)
  }

  /** Joining four fields. */
  lemma Join4(a: string, b: string, c: string, d: string, sep: char)
    ensures Join([a, b, c, d], sep) == a + [sep] + b + [sep] + c + [sep] + d
  {
    var parts := [a, b, c, d];
    assert parts[1..] == [b, c, d];
    assert [b, c, d][1..] == [c, d];
    assert [c, d][1..] == [d];
    assert Join([c, d], sep) == c + [sep] + d;
    assert Join([b, c, d], sep) == b + [sep] + (c + [sep] + d);
    assert Join(parts, sep) == a + [sep] + (b + [sep] + (c + [sep] + d));
  }

  /** Four separator-free fields joined by the separator split back into those four. */
  lemma SplitFour(a: string, b: string, c: string, d: string, sep: char)
    requires sep !in a && sep !in b && sep !in c && sep !in d
    ensures Split(a + [sep] + b + [sep] + c + [sep] + d, sep) == [a, b, c, d]
  {
    Join4(a, b, c, d, sep);
    SplitJoin([a, b, c, d], sep);
  }

  /** When the last two fields hold no separator, splitting finds them as the
      last two pieces, after the pieces of everything before them. */
  lemma SplitLastTwo(a: string, b: string, c: string, sep: char)
    requires sep !in b && sep !in c
    ensures var parts := Split(a + [sep] + b + [sep] + c, sep);
      |parts| >= 3 && parts[..|parts| - 2] == Split(a, sep) && parts[|parts| - 2..] == [b, c]
  {
    var t := b + [sep] + c;
    assert a + [sep] + b + [sep] + c == a + [sep] + t;
    SplitAppend(a, t, sep);
    SplitAppend(b, c, sep);
    LastTwo(Split(a, sep), b, c);
  }

  lemma LastTwo<T>(head: seq<T>, b: T, c: T)
    ensures var s := head + [b, c];
      |s| >= 2 && s[..|s| - 2] == head && s[|s| - 2..] == [b, c]
  {
    var s := head + [b, c];
    assert s[..|s| - 2] == head;
  }

  /** Splitting at one separator splits the two sides independently. */
  lemma {:induction false} SplitAppend(a: string, b: string, sep: char)
    ensures Split(a + [sep] + b, sep) == Split(a, sep) + Split(b, sep)
    decreases |a|
  {
    var s := a + [sep] + b;
    if |a| == 0 {
      assert s == [sep] + b;
      assert s[1..] == b;
    } else {
      assert s[0] == a[0] && s[1..] == a[1..] + [sep] + b;
      SplitAppend(a[1..], b, sep);
      var ra, rb := Split(a[1..], sep), Split(b, sep);
      if a[0] != sep {
        ConsFirst([a[0]], ra, rb);
      }
    }
  }

  /** Extending the first of several pieces commutes with appending more pieces. */
  lemma ConsFirst(x: string, r: seq<string>, t: seq<string>)
    requires |r| >= 1
    ensures [x + r[0]] + r[1..] + t == [x + (r + t)[0]] + (r + t)[1..]
  {
    assert (r + t)[0] == r[0];
    assert (r + t)[1..] == r[1..] + t;
  }

  /** Joining a non-empty list of separator-free fields and splitting the
      result gives the fields back. */
  lemma {:induction false} SplitJoin(parts: seq<string>, sep: char)
    requires |parts| >= 1
    requires forall p <- parts :: sep !in p
    ensures Split(Join(parts, sep), sep) == parts
    decreases |parts|
  {
    assert parts[0] in parts;
    if |parts| > 1 {
      var tail := parts[1..];
      assert forall p <- tail :: p in parts;
      SplitJoin(tail, sep);
      SplitJoinStep(parts[0], tail, sep);
      assert parts == [parts[0]] + tail;
    }
  }

  /** One more separator-free field in front of fields that split back. */
  lemma SplitJoinStep(head: string, tail: seq<string>, sep: char)
    requires sep !in head && |tail| >= 1
    requires Split(Join(tail, sep), sep) == tail
    ensures Split(Join([head] + tail, sep), sep) == [head] + tail
  {
    var parts := [head] + tail;
    assert parts[0] == head && parts[1..] == tail;
    assert Join(parts, sep) == head + [sep] + Join(tail, sep);
    SplitAppend(head, Join(tail, sep), sep);
  }

  /** Splitting and joining again gives back the original string. */
  lemma {:induction false} JoinSplit(s: string, sep: char)
    ensures Join(Split(s, sep), sep) == s
    decreases |s|
  {
    if |s| > 0 {
      JoinSplit(s[1..], sep);
      var rest := Split(s[1..], sep);
      if s[0] == sep {
        assert Split(s, sep) == [""] + rest;
        assert ([""] + rest)[1..] == rest;
      } else {
        JoinHead(rest, [s[0]], sep);
      }
    }
  }

  /** Prepending text to the first field prepends it to the joined string. */
  lemma JoinHead(parts: seq<string>, pre: string, sep: char)
    requires |parts| >= 1
    ensures Join([pre + parts[0]] + parts[1..], sep) == pre + Join(parts, sep)
  {
    var q := [pre + parts[0]] + parts[1..];
    assert q[1..] == parts[1..];
  }

  /** `s` with every occurrence of `c` deleted. */
  function RemoveAll(s: string, c: char): (r: string)
    ensures c !in r
    ensures |r| <= |s|
    ensures forall x <- r :: x in s
    ensures c !in s ==> r == s
    decreases |s|
  {
    if |s| == 0 then ""
    else if s[0] == c then RemoveAll(s[1..], c)
    else [s[0]] + RemoveAll(s[1..], c)
  }

  /** Deleting a character from a concatenation deletes it from each side. */
  lemma {:induction false} RemoveAllAppend(a: string, b: string, c: char)
    ensures RemoveAll(a + b, c) == RemoveAll(a, c) + RemoveAll(b, c)
    decreases |a|
  {
    if |a| > 0 {
      assert (a + b)[1..] == a[1..] + b;
      RemoveAllAppend(a[1..], b, c);
    } else {
      assert a + b == b;
    }
  }

  /** Removing the two separators between three separator-free pieces. */
  lemma RemoveTwoSeparators(a: string, b: string, d: string, c: char)
    requires c !in a && c !in b && c !in d
    ensures RemoveAll(a + [c] + b + [c] + d, c) == a + b + d
  {
    var sep := [c];
    assert RemoveAll(sep, c) == [];
    RemoveAllAppend(a, sep, c);
    var left := a + sep;
    assert RemoveAll(left, c) == a;
    RemoveAllAppend(left, b, c);
    var middle := left + b;
    assert RemoveAll(middle, c) == a + b;
    RemoveAllAppend(middle, sep, c);
    var right := middle + sep;
    assert RemoveAll(right, c) == a + b;
    RemoveAllAppend(right, d, c);
    assert a + [c] + b + [c] + d == right + d;
  }

  function LowerChar(c: char): char {
    if 'A' <= c <= 'Z' then (c as int + 32) as char else c
  }

  /** ASCII lower-casing, character by character. */
  function Lower(s: string): (r: string)
    ensures |r| == |s|
    ensures forall i :: 0 <= i < |s| ==> r[i] == LowerChar(s[i])
  {
    seq(|s|, i requires 0 <= i < |s| => LowerChar(s[i]))
  }

  /** Strict lexicographic order by code point. On text of the Basic
      Multilingual Plane, where code points and UTF-16 code units coincide,
      this is JavaScript's `a < b`; above U+FFFF the two orders differ. */
  predicate LexLess(a: string, b: string)
    decreases |a|
  {
    |b| > 0 && (|a| == 0 || a[0] < b[0] || (a[0] == b[0] && LexLess(a[1..], b[1..])))
  }

  /** Strictly ascending: every earlier element is `LexLess` than every later one. */
  predicate StrictlyAscending(names: seq<string>) {
    forall i, j :: 0 <= i < j < |names| ==> LexLess(names[i], names[j])
  }

  predicate IsPrefix(pre: string, s: string) {
    |pre| <= |s| && s[..|pre|] == pre
  }

  /** Dropping a prefix leaves what followed it. */
  lemma DropPrefix(a: string, b: string, c: string)
    ensures (a + b + c)[|a|..] == b + c
  {
  }

  lemma PrefixOfConcat(a: string, b: string)
    ensures IsPrefix(a, a + b)
  {
    assert (a + b)[..|a|] == a;
  }
}
