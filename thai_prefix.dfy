/**
 * The fallback clean-up of a chat notification: a sender prefix such as
 * "<Thai text> Name: " is cut off when the text is one Thai-initial line.
 */
module ThaiPrefix {
  import opened Wrappers
  import opened Strings

  /** The Unicode Thai block, U+0E00 to U+0E7F, as the character class `[฀-๿]`. */
  predicate IsThai(c: char)
  {
    '\U{E00}' <= c <= '\U{E7F}'
  }

  /** The characters `.` does not match when DOTALL is off. */
  predicate IsLineTerminator(c: char)
  {
    c == '\n' || c == '\r' || c == '\U{85}' || c == '\U{2028}' || c == '\U{2029}'
  }

  predicate NoLineTerminator(s: string)
  {
    forall i :: 0 <= i < |s| ==> !IsLineTerminator(s[i])
  }

  /** `s.matches("^[\\u0E00-\\u0E7F].*")`: the whole text is a Thai character followed by one line. */
  predicate MatchesThaiLine(s: string)
  {
    |s| > 0 && IsThai(s[0]) && NoLineTerminator(s[1..])
  }

  const Separator: string := ": "

  /** The fallback content after the nested checks: null-safe, then `contains`, `matches` and `indexOf`. */
  function StripThaiPrefix(s: Option<string>): Option<string>
  {
    if s.Some? && Contains(s.value, Separator) then
      if MatchesThaiLine(s.value) then
        var colon := IndexOf(s.value, Separator);
        if colon > 0 then Some(s.value[colon + 2..]) else s
      else s
    else s
  }

  /** Null, text without the separator, and text that is not one Thai-initial line are all left alone. */
  lemma UnchangedCases(s: Option<string>)
    ensures s == None ==> StripThaiPrefix(s) == s
    ensures s.Some? && (forall j :: !OccursAt(s.value, Separator, j)) ==> StripThaiPrefix(s) == s
    ensures s.Some? && |s.value| > 0 && !IsThai(s.value[0]) ==> StripThaiPrefix(s) == s
    ensures s.Some? && (exists i :: 1 <= i < |s.value| && IsLineTerminator(s.value[i])) ==> StripThaiPrefix(s) == s
  {
    if s.Some? && (exists i :: 1 <= i < |s.value| && IsLineTerminator(s.value[i])) {
      var i :| 1 <= i < |s.value| && IsLineTerminator(s.value[i]);
      assert s.value[1..][i - 1] == s.value[i];
    }
  }

  /** A separator is never at index 0 of a Thai-initial text. */
  lemma SeparatorNotFirst(x: string)
    requires |x| > 0 && IsThai(x[0])
    ensures !OccursAt(x, Separator, 0)
  {
    if |x| >= 2 {
      assert x[..2][0] == x[0];
    }
  }

  /** On a Thai-initial line, everything up to and including the first separator is cut. */
  lemma StripsAtFirstSeparator(x: string, k: int)
    requires MatchesThaiLine(x)
    requires OccursAt(x, Separator, k) && forall j :: 0 <= j < k ==> !OccursAt(x, Separator, j)
    ensures k > 0
    ensures StripThaiPrefix(Some(x)) == Some(x[k + 2..])
    ensures |x[k + 2..]| == |x| - k - 2 && x == x[..k + 2] + x[k + 2..]
  {
    SeparatorNotFirst(x);
    var i := IndexOf(x, Separator);
    assert i == k;
  }

  /** Whenever the text changes, it was a Thai-initial line and lost exactly its first-separator prefix. */
  lemma ChangedOnlyByStripping(x: string)
    requires StripThaiPrefix(Some(x)) != Some(x)
    ensures MatchesThaiLine(x)
    ensures var k := IndexOf(x, Separator);
      && k > 0 && OccursAt(x, Separator, k)
      && StripThaiPrefix(Some(x)) == Some(x[k + 2..])
  {
  }

  /** Separators after the first one stay in the result, at the shifted position. */
  lemma LaterSeparatorsKept(x: string, k: int, m: int)
    requires MatchesThaiLine(x)
    requires OccursAt(x, Separator, k) && forall j :: 0 <= j < k ==> !OccursAt(x, Separator, j)
    requires k + 2 <= m && OccursAt(x, Separator, m)
    ensures OccursAt(StripThaiPrefix(Some(x)).value, Separator, m - k - 2)
  {
    StripsAtFirstSeparator(x, k);
    var r := x[k + 2..];
    assert r[m - k - 2..m - k] == x[m..m + 2];
  }

  /** The sender prefix of the sample notification: a Thai phrase and a name. */
  const SampleThai: string := "\U{E02}\U{E49}\U{E2D}\U{E04}\U{E27}\U{E32}\U{E21}\U{E08}\U{E32}\U{E01}\U{E04}\U{E38}\U{E13}"
  const SamplePrefix: string := SampleThai + " Somruethai PA"

  /** The sample chat notification: a Thai sender prefix, the separator and the message. */
  const Sample: string := SamplePrefix + Separator + "Chat test from BDC5"

  /** A one-line sender prefix that starts with a Thai character and has no colon is cut off
      together with the separator. */
  lemma StripsSenderPrefix(a: string, b: string)
    requires |a| > 0 && IsThai(a[0]) && ':' !in a
    requires NoLineTerminator(a) && NoLineTerminator(b)
    ensures StripThaiPrefix(Some(a + Separator + b)) == Some(b)
  {
    var x := a + Separator + b;
    assert x[|a|..|a| + 2] == Separator;
    forall j | 0 <= j < |a| ensures !OccursAt(x, Separator, j) {
      assert x[j] == a[j];
      if j + 2 <= |x| {
        assert x[j..j + 2][0] == x[j];
      }
    }
    forall i | 0 <= i < |x[1..]| ensures !IsLineTerminator(x[1..][i]) {
      if i + 1 < |a| {
        assert x[1..][i] == a[i + 1];
      } else if i + 1 >= |a| + 2 {
        assert x[1..][i] == b[i + 1 - |a| - 2];
      }
    }
    StripsAtFirstSeparator(x, |a|);
    assert x[|a| + 2..] == b;
  }

  /** The sample loses its 29-character prefix. */
  lemma SampleStripped()
    ensures StripThaiPrefix(Some(Sample)) == Some("Chat test from BDC5")
  {
    var name := " Somruethai PA";
    assert ':' !in SampleThai && ':' !in name;
    assert NoLineTerminator(SampleThai) && NoLineTerminator(name);
    assert forall i :: 0 <= i < |SamplePrefix| ==> SamplePrefix[i] == if i < |SampleThai| then SampleThai[i] else name[i - |SampleThai|];
    assert NoLineTerminator("Chat test from BDC5");
    StripsSenderPrefix(SamplePrefix, "Chat test from BDC5");
  }
}
