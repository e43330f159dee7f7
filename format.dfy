/**
 * `String.format` for format strings whose only conversion is `%s`. Such a
 * format string is given by the literal texts around its slots: the format
 * string is `Join(texts, "%s")` and it has `|texts| - 1` slots.
 */
module Formatting {
  import opened Strings

  /** The number of `%s` slots between the given literal texts. */
  function Slots(texts: seq<string>): nat
  {
    if |texts| == 0 then 0 else |texts| - 1
  }

  /**
   * `String.format(Join(texts, "%s"), args...)`: the slots take the arguments
   * in order, each inserted verbatim; arguments beyond the last slot are unused.
   */
  function Format(texts: seq<string>, args: seq<string>): string
    requires |texts| > 0 && Slots(texts) <= |args|
  {
    if |texts| == 1 then texts[0]
    else texts[0] + args[0] + Format(texts[1..], args[1..])
  }

  /** Filling each slot with the two characters `%s` gives back the format string. */
  lemma {:induction false} FormatReproducesTemplate(texts: seq<string>, placeholders: seq<string>)
    requires |texts| > 0 && |placeholders| == Slots(texts)
    requires forall i :: 0 <= i < |placeholders| ==> placeholders[i] == "%s"
    ensures Format(texts, placeholders) == Join(texts, "%s")
  {
    if |texts| > 1 {
      FormatReproducesTemplate(texts[1..], placeholders[1..]);
    }
  }

  /** The single-slot layout: literal, argument, literal. */
  lemma FormatOneSlot(before: string, arg: string, after: string)
    ensures Format([before, after], [arg]) == before + arg + after
  {
    assert [before, after][1..] == [after];
  }

  /** The four-slot layout: each argument between the texts around its slot. */
  lemma FormatFourSlots(t0: string, t1: string, t2: string, t3: string, t4: string,
                        a0: string, a1: string, a2: string, a3: string)
    ensures Format([t0, t1, t2, t3, t4], [a0, a1, a2, a3]) == t0 + a0 + t1 + a1 + t2 + a2 + t3 + a3 + t4
  {
    var texts, args := [t0, t1, t2, t3, t4], [a0, a1, a2, a3];
    FormatOneSlot(t3, a3, t4);
    assert texts[3..] == [t3, t4] && args[3..] == [a3];
    assert texts[2..][1..] == texts[3..] && args[2..][1..] == args[3..];
    assert Format(texts[2..], args[2..]) == t2 + a2 + (t3 + a3 + t4);
    assert texts[1..][1..] == texts[2..] && args[1..][1..] == args[2..];
    assert Format(texts[1..], args[1..]) == t1 + a1 + (t2 + a2 + (t3 + a3 + t4));
  }
}
