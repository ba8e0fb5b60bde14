/**
 * The few pieces of Python string handling the codename parsers rely on:
 * `str.split` on one separator character, `sep.join`, and the position of
 * the first occurrence of a character.
 */
module Strings {

  /** Index of the first occurrence of `c` in `s`. */
  function IndexOf(s: string, c: char): (i: nat)
    requires c in s
    ensures i < |s| && s[i] == c
    ensures c !in s[..i]
  {
    if s[0] == c then 0 else 1 + IndexOf(s[1..], c)
  }

  /** `s.split(c)`: the maximal pieces between occurrences of `c`. */
  function Split(s: string, c: char): (r: seq<string>)
    ensures |r| >= 1
    ensures forall i :: 0 <= i < |r| ==> c !in r[i]
    ensures forall i :: 0 <= i < |r| ==> |r[i]| <= |s|
    decreases |s|
  {
    if c in s then
      var i := IndexOf(s, c);
      [s[..i]] + Split(s[i + 1..], c)
    else
      [s]
  }

  /** `sep.join(parts)`. */
  function Join(parts: seq<string>, sep: string): (r: string)
  {
    if parts == [] then ""
    else if |parts| == 1 then parts[0]
    else parts[0] + sep + Join(parts[1..], sep)
  }

  lemma {:induction false} JoinCons(p: string, parts: seq<string>, sep: string)
    requires |parts| >= 1
    ensures Join([p] + parts, sep) == p + sep + Join(parts, sep)
  {
    assert ([p] + parts)[1..] == parts;
  }

  /** Joining the pieces of a split gives the string back. */
  lemma {:induction false} JoinSplit(s: string, c: char)
    ensures Join(Split(s, c), [c]) == s
    decreases |s|
  {
    if c in s {
      var i := IndexOf(s, c);
      JoinSplit(s[i + 1..], c);
      JoinCons(s[..i], Split(s[i + 1..], c), [c]);
      assert s == s[..i] + [c] + s[i + 1..];
    }
  }

  /** Splitting around a separator distributes over the two sides. */
  lemma {:induction false} SplitAround(a: string, c: char, b: string)
    requires c !in a
    ensures Split(a + [c] + b, c) == [a] + Split(b, c)
  {
    var s := a + [c] + b;
    assert forall j :: 0 <= j < |a| ==> s[j] == a[j];
    assert s[|a|] == c;
    var i := IndexOf(s, c);
    assert i == |a|;
    assert s[..i] == a;
    assert s[i + 1..] == b;
  }

  lemma {:induction false} SplitAppend(a: string, c: char, b: string)
    ensures Split(a + [c] + b, c) == Split(a, c) + Split(b, c)
    decreases |a|
  {
    if c in a {
      var i := IndexOf(a, c);
      var p, rest := a[..i], a[i + 1..];
      Regroup(a, i, c, b);
      SplitAround(p, c, rest + [c] + b);
      SplitAppend(rest, c, b);
      SplitAround(p, c, rest);
      assert a == p + [c] + rest;
      ConsAppend(p, Split(rest, c), Split(b, c));
    } else {
      SplitAround(a, c, b);
    }
  }

  /** Cutting `a` at a separator `a[i]` and regrouping the appended tail. */
  lemma {:induction false} Regroup(a: string, i: nat, c: char, b: string)
    requires i < |a| && a[i] == c
    ensures a == a[..i] + [c] + a[i + 1..]
    ensures a + [c] + b == a[..i] + [c] + (a[i + 1..] + [c] + b)
  {
    assert a == a[..i] + [a[i]] + a[i + 1..];
  }

  lemma {:induction false} ConsAppend(p: string, x: seq<string>, y: seq<string>)
    ensures [p] + (x + y) == ([p] + x) + y
  {
  }

  /** Splitting a join of separator-free pieces gives the pieces back. */
  lemma {:induction false} SplitJoin(parts: seq<string>, c: char)
    requires |parts| >= 1
    requires forall i :: 0 <= i < |parts| ==> c !in parts[i]
    ensures Split(Join(parts, [c]), c) == parts
  {
    var head, tail := parts[0], parts[1..];
    if |parts| > 1 {
      SeparatorFreeTail(parts, c);
      SplitJoin(tail, c);
      assert parts == [head] + tail;
      SplitJoinCons(head, tail, c);
    } else {
      SplitJoinSingle(parts, c);
    }
  }

  lemma {:induction false} SeparatorFreeTail(parts: seq<string>, c: char)
    requires |parts| >= 1 && forall i :: 0 <= i < |parts| ==> c !in parts[i]
    ensures forall i :: 0 <= i < |parts[1..]| ==> c !in parts[1..][i]
  {
    forall i | 0 <= i < |parts[1..]| ensures c !in parts[1..][i] {
      assert parts[1..][i] == parts[i + 1];
    }
  }

  lemma {:induction false} SplitJoinSingle(parts: seq<string>, c: char)
    requires |parts| == 1 && c !in parts[0]
    ensures Split(Join(parts, [c]), c) == parts
  {
    assert Join(parts, [c]) == parts[0];
  }

  lemma {:induction false} SplitJoinCons(head: string, tail: seq<string>, c: char)
    requires c !in head && |tail| >= 1 && Split(Join(tail, [c]), c) == tail
    ensures Split(Join([head] + tail, [c]), c) == [head] + tail
  {
    JoinCons(head, tail, [c]);
    SplitAround(head, c, Join(tail, [c]));
  }

  /** `re.match(p, s)` for a pattern `p` of plain characters: `s` begins with `p`. */
  predicate StartsWith(s: string, p: string)
    decreases |p|
  {
    p == [] || (s != [] && s[0] == p[0] && StartsWith(s[1..], p[1..]))
  }

  lemma {:induction false} StartsWithSpec(s: string, p: string)
    ensures StartsWith(s, p) <==> |p| <= |s| && s[..|p|] == p
    decreases |p|
  {
    if p != [] && s != [] {
      StartsWithSpec(s[1..], p[1..]);
      if |p| <= |s| {
        assert s[..|p|] == [s[0]] + s[1..][..|p| - 1];
        assert p == [p[0]] + p[1..];
      }
    }
  }

  /** `re.search(p, s)` for a pattern `p` of plain characters: `p` occurs somewhere in `s`. */
  predicate Contains(s: string, p: string)
    decreases |s|
  {
    StartsWith(s, p) || (s != [] && Contains(s[1..], p))
  }

  predicate OccursAt(s: string, p: string, i: nat)
  {
    i + |p| <= |s| && s[i..i + |p|] == p
  }

  lemma {:induction false} OccursAtHead(s: string, p: string)
    ensures OccursAt(s, p, 0) <==> StartsWith(s, p)
  {
    StartsWithSpec(s, p);
    if |p| <= |s| {
      assert s[0..0 + |p|] == s[..|p|];
    }
  }

  lemma {:induction false} ContainsAt(s: string, p: string, i: nat)
    requires OccursAt(s, p, i)
    ensures Contains(s, p)
    decreases i
  {
    if i > 0 {
      assert s[1..][i - 1..i - 1 + |p|] == p;
      ContainsAt(s[1..], p, i - 1);
    } else {
      OccursAtHead(s, p);
    }
  }

  /** Extensionally: `p` occurs at some position of `s`. */
  lemma {:induction false} ContainsSpec(s: string, p: string)
    ensures Contains(s, p) <==> exists i: nat :: OccursAt(s, p, i)
    decreases |s|
  {
    if exists i: nat :: OccursAt(s, p, i) {
      var i: nat :| OccursAt(s, p, i);
      ContainsAt(s, p, i);
    }
    if Contains(s, p) {
      OccursAtHead(s, p);
      if !StartsWith(s, p) {
        ContainsSpec(s[1..], p);
        var i: nat :| OccursAt(s[1..], p, i);
        assert s[i + 1..i + 1 + |p|] == s[1..][i..i + |p|];
        assert OccursAt(s, p, i + 1);
      }
    }
  }

  /** A character in none of the pieces and not in the separator is not in their join. */
  lemma {:induction false} JoinAvoids(parts: seq<string>, sep: string, c: char)
    requires c !in sep
    requires forall i :: 0 <= i < |parts| ==> c !in parts[i]
    ensures c !in Join(parts, sep)
  {
    if |parts| > 1 {
      JoinAvoids(parts[1..], sep, c);
    }
  }

  /** A character missing from a join is missing from every piece. */
  lemma {:induction false} PartsAvoid(parts: seq<string>, sep: string, c: char)
    requires c !in Join(parts, sep)
    ensures forall i :: 0 <= i < |parts| ==> c !in parts[i]
  {
    if |parts| > 1 {
      PartsAvoid(parts[1..], sep, c);
      assert forall i :: 1 <= i < |parts| ==> parts[i] == parts[1..][i - 1];
    }
  }

  /** A pattern holding a character the text lacks does not occur in it. */
  lemma {:induction false} NotContains(s: string, p: string, j: nat)
    requires j < |p| && p[j] !in s
    ensures !Contains(s, p)
    decreases |s|
  {
    PrefixChar(s, p, j);
    if s != [] {
      NotContains(s[1..], p, j);
    }
  }

  lemma {:induction false} PrefixChar(s: string, p: string, j: nat)
    requires j < |p|
    ensures StartsWith(s, p) ==> p[j] in s
  {
    StartsWithSpec(s, p);
    if StartsWith(s, p) {
      assert s[..|p|][j] == s[j];
    }
  }
}
