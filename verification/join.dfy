/** `Join(separator)`: the strings of a sequence glued together with the
    separator between consecutive ones (a single space by default). */
module Joining {
  import opened Values

  const DefaultSeparator: string := " "

  /** The combined length of a sequence of strings. */
  function TotalLength(parts: seq<string>): nat {
    if parts == [] then 0 else |parts[0]| + TotalLength(parts[1..])
  }

  /** `separator.join(parts)`. No parts give the empty string; one part is
      returned as it is; otherwise the result is as long as all the parts
      plus one separator between each consecutive pair. */
  function Join(separator: string, parts: seq<string>): (r: string)
    ensures parts == [] ==> r == ""
    ensures |parts| == 1 ==> r == parts[0]
    ensures |parts| >= 1 ==> |r| == TotalLength(parts) + (|parts| - 1) * |separator|
  {
    if |parts| == 0 then ""
    else if |parts| == 1 then parts[0]
    else parts[0] + separator + Join(separator, parts[1..])
  }

  /** The join grows one separator and one part at a time, left to right. */
  lemma {:induction false} JoinAppend(separator: string, parts: seq<string>, last: string)
    requires parts != []
    ensures Join(separator, parts + [last]) == Join(separator, parts) + separator + last
    decreases |parts|
  {
    if |parts| > 1 {
      assert (parts + [last])[1..] == parts[1..] + [last];
      JoinAppend(separator, parts[1..], last);
    } else {
      assert (parts + [last])[1..] == [last];
    }
  }

  /** `Join` applied to values: every value must be a string, otherwise the
      call fails (Python raises a type error), modelled as `Nothing`. */
  function JoinValues(separator: string, values: seq<Value>): (r: Maybe<string>)
    ensures r.Just? <==> forall i :: 0 <= i < |values| ==> values[i].Str?
    ensures r.Just? ==> r.value == Join(separator, seq(|values|, i requires 0 <= i < |values| => values[i].s))
  {
    if forall i :: 0 <= i < |values| ==> values[i].Str? then
      Just(Join(separator, seq(|values|, i requires 0 <= i < |values| => values[i].s)))
    else
      Nothing
  }

  /** Splits a string at every occurrence of the character `c`: the inverse
      of joining with `c` when no part contains `c`. */
  function Split(c: char, s: string): (r: seq<string>)
    ensures |r| >= 1
    decreases |s|
  {
    if |s| == 0 then [""]
    else
      var rest := Split(c, s[1..]);
      if s[0] == c then [""] + rest else [[s[0]] + rest[0]] + rest[1..]
  }

  lemma {:induction false} SplitWithoutSeparator(c: char, s: string)
    requires c !in s
    ensures Split(c, s) == [s]
    decreases |s|
  {
    if |s| > 0 {
      SplitWithoutSeparator(c, s[1..]);
      assert [s[0]] + s[1..] == s;
    }
  }

  lemma {:induction false} SplitAfterPart(c: char, x: string, y: string)
    requires c !in x
    ensures Split(c, x + [c] + y) == [x] + Split(c, y)
    decreases |x|
  {
    var s := x + [c] + y;
    if |x| == 0 {
      assert s[1..] == y;
    } else {
      assert s[1..] == x[1..] + [c] + y;
      SplitAfterPart(c, x[1..], y);
      assert [x[0]] + x[1..] == x;
    }
  }

  /** Joining with a one-character separator that no part contains, then
      splitting at that character, gives the parts back. */
  lemma {:induction false} JoinSplitRoundTrip(c: char, parts: seq<string>)
    requires parts != []
    requires forall i :: 0 <= i < |parts| ==> c !in parts[i]
    ensures Split(c, Join([c], parts)) == parts
    decreases |parts|
  {
    if |parts| == 1 {
      SplitWithoutSeparator(c, parts[0]);
    } else {
      JoinSplitRoundTrip(c, parts[1..]);
      SplitAfterPart(c, parts[0], Join([c], parts[1..]));
      assert [parts[0]] + parts[1..] == parts;
    }
  }

  /** The documented examples: default separator, and a comma. */
  lemma JoinExamples()
    ensures Join(DefaultSeparator, ["a", "b"]) == "a b"
    ensures Join(",", ["a", "b"]) == "a,b"
    ensures JoinValues(",", [Str("a"), Int(1)]) == Nothing
  {
  }
}
