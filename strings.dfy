/** The java.lang.String operations the core relies on, over `seq<char>`. */
module Strings {

  /** `s.startsWith(prefix)`. */
  predicate StartsWith(s: string, prefix: string)
  {
    |prefix| <= |s| && s[..|prefix|] == prefix
  }

  /** `s.endsWith(suffix)`. */
  predicate EndsWith(s: string, suffix: string)
  {
    |suffix| <= |s| && s[|s| - |suffix|..] == suffix
  }

  /** Lower-casing of one character, restricted to ASCII letters. */
  function LowerChar(c: char): char
  {
    if 'A' <= c <= 'Z' then (c as int - 'A' as int + 'a' as int) as char else c
  }

  /** `s.toLowerCase()` on the ASCII range: every character is mapped on its own. */
  function LowerAscii(s: string): (r: string)
    ensures |r| == |s|
    ensures forall i :: 0 <= i < |s| ==> r[i] == LowerChar(s[i])
  {
    seq(|s|, i requires 0 <= i < |s| => LowerChar(s[i]))
  }

  /** Lower-casing commutes with taking a prefix. */
  lemma LowerAsciiPrefix(s: string, n: nat)
    requires n <= |s|
    ensures LowerAscii(s)[..n] == LowerAscii(s[..n])
  {
  }

  /** The parts in order with `sep` between neighbours, as `getHeader(name, sep)` combines
      the values of a header. */
  function Join(parts: seq<string>, sep: string): string
  {
    if |parts| == 0 then ""
    else if |parts| == 1 then parts[0]
    else parts[0] + sep + Join(parts[1..], sep)
  }

  /** Joining a sequence with one more element at the end adds `sep` and that element. */
  lemma {:induction false} JoinSnoc(parts: seq<string>, last: string, sep: string)
    requires |parts| > 0
    ensures Join(parts + [last], sep) == Join(parts, sep) + sep + last
  {
    if |parts| == 1 {
      assert parts + [last] == [parts[0], last];
    } else {
      assert (parts + [last])[1..] == parts[1..] + [last];
      JoinSnoc(parts[1..], last, sep);
    }
  }

  /** Splitting at every `sep`, keeping empty fields: a reference inverse of `Join`, used
      to show that a joined header can be read back. */
  function Split(s: string, sep: char): (r: seq<string>)
    ensures |r| > 0
    decreases |s|
  {
    var i := IndexOf(s, [sep]);
    if i < 0 then [s] else [s[..i]] + Split(s[i + 1..], sep)
  }

  /** A string without `sep` has no occurrence of `[sep]`. */
  lemma NoSeparator(a: string, sep: char)
    requires sep !in a
    ensures forall j :: !OccursAt(a, [sep], j)
  {
    forall j | 0 <= j && j + 1 <= |a| ensures !OccursAt(a, [sep], j) {
      assert a[j..j + 1][0] == a[j];
    }
  }

  /** The first separator of `a + [sep] + b` is the one after `a` when `a` has none. */
  lemma FirstSeparator(a: string, b: string, sep: char)
    requires sep !in a
    ensures IndexOf(a + [sep] + b, [sep]) == |a|
  {
    var s := a + [sep] + b;
    assert s[|a|..|a| + 1] == [sep];
    assert OccursAt(s, [sep], |a|);
    forall j | 0 <= j < |a| ensures !OccursAt(s, [sep], j) {
      assert s[j..j + 1][0] == a[j];
    }
  }

  /** A field without the separator, then the separator, splits off as the first field. */
  lemma SplitFirstField(a: string, b: string, sep: char)
    requires sep !in a
    ensures Split(a + [sep] + b, sep) == [a] + Split(b, sep)
  {
    var s := a + [sep] + b;
    FirstSeparator(a, b, sep);
    assert s[..|a|] == a;
    assert s[|a| + 1..] == b;
  }

  /** Splitting undoes joining when no part contains the separator. */
  lemma {:induction false} SplitJoin(parts: seq<string>, sep: char)
    requires |parts| > 0
    requires forall i :: 0 <= i < |parts| ==> sep !in parts[i]
    ensures Split(Join(parts, [sep]), sep) == parts
  {
    if |parts| == 1 {
      NoSeparator(parts[0], sep);
    } else {
      var tail := Join(parts[1..], [sep]);
      assert Join(parts, [sep]) == parts[0] + [sep] + tail;
      SplitFirstField(parts[0], tail, sep);
      SplitJoin(parts[1..], sep);
      assert parts == [parts[0]] + parts[1..];
    }
  }

  /** `pat` occurs in `s` at index `j`. */
  predicate OccursAt(s: string, pat: string, j: int)
  {
    0 <= j && j + |pat| <= |s| && s[j..j + |pat|] == pat
  }

  /** `s.indexOf(pat)`: the first index where `pat` occurs, or -1. */
  function IndexOf(s: string, pat: string): (r: int)
    ensures -1 <= r
    ensures r >= 0 ==> OccursAt(s, pat, r)
    ensures r >= 0 ==> forall j :: 0 <= j < r ==> !OccursAt(s, pat, j)
    ensures r == -1 ==> forall j :: 0 <= j ==> !OccursAt(s, pat, j)
    decreases |s|
  {
    if |pat| > |s| then -1
    else if s[..|pat|] == pat then 0
    else
      var k := IndexOf(s[1..], pat);
      forall j | 1 <= j ensures OccursAt(s, pat, j) <==> OccursAt(s[1..], pat, j - 1) {
        if j + |pat| <= |s| {
          var here, there := s[j..j + |pat|], s[1..][j - 1..j - 1 + |pat|];
          assert forall k :: 0 <= k < |pat| ==> here[k] == there[k];
        }
      }
      if k < 0 then -1 else k + 1
  }

  /** `s.contains(pat)`, which Java defines as `s.indexOf(pat) >= 0`. */
  predicate Contains(s: string, pat: string)
  {
    IndexOf(s, pat) >= 0
  }

  /** `s.replaceAll(c, rep)` for a pattern that matches the single character `c`. */
  function ReplaceChar(s: string, c: char, rep: string): (r: string)
  {
    if |s| == 0 then ""
    else (if s[0] == c then rep else [s[0]]) + ReplaceChar(s[1..], c, rep)
  }

  /** Replacement works character by character, so it distributes over concatenation. */
  lemma {:induction false} ReplaceCharAppend(a: string, b: string, c: char, rep: string)
    ensures ReplaceChar(a + b, c, rep) == ReplaceChar(a, c, rep) + ReplaceChar(b, c, rep)
    decreases |a|
  {
    if |a| == 0 {
      assert a + b == b;
    } else {
      assert (a + b)[0] == a[0];
      assert (a + b)[1..] == a[1..] + b;
      ReplaceCharAppend(a[1..], b, c, rep);
    }
  }

  /** The number of occurrences of `c` in `s`. */
  function Count(s: string, c: char): nat
  {
    multiset(s)[c]
  }

  /** Replacing a character that does not occur changes nothing. */
  lemma {:induction false} ReplaceCharAbsent(s: string, c: char, rep: string)
    requires c !in s
    ensures ReplaceChar(s, c, rep) == s
    decreases |s|
  {
    if |s| > 0 {
      ReplaceCharAbsent(s[1..], c, rep);
      assert s == [s[0]] + s[1..];
    }
  }

  /** After replacing `c` by a text without `c`, no `c` is left. */
  lemma {:induction false} ReplaceCharRemoves(s: string, c: char, rep: string)
    requires c !in rep
    ensures c !in ReplaceChar(s, c, rep)
    decreases |s|
  {
    if |s| > 0 {
      ReplaceCharRemoves(s[1..], c, rep);
    }
  }

  /** Replacing `c` by a text without `d` keeps the number of `d`s. */
  lemma {:induction false} ReplaceCharKeepsCount(s: string, c: char, rep: string, d: char)
    requires d != c && d !in rep
    ensures Count(ReplaceChar(s, c, rep), d) == Count(s, d)
    decreases |s|
  {
    if |s| > 0 {
      ReplaceCharKeepsCount(s[1..], c, rep, d);
      assert s == [s[0]] + s[1..];
      var head := if s[0] == c then rep else [s[0]];
      assert multiset(head + ReplaceChar(s[1..], c, rep)) == multiset(head) + multiset(ReplaceChar(s[1..], c, rep));
    }
  }

  /** Replacing each `c` by two characters adds one character per occurrence. */
  lemma {:induction false} ReplaceCharLength(s: string, c: char, rep: string)
    requires |rep| == 2
    ensures |ReplaceChar(s, c, rep)| == |s| + Count(s, c)
    decreases |s|
  {
    if |s| > 0 {
      ReplaceCharLength(s[1..], c, rep);
      assert s == [s[0]] + s[1..];
      assert multiset(s) == multiset([s[0]]) + multiset(s[1..]);
    }
  }
}
