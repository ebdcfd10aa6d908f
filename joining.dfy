/** Python's `', '.join(names)` and, as its inverse, `text.split(', ')`. */
module Joining {

  const SEPARATOR: string := ", "

  function Join(names: seq<string>): string
  {
    if |names| == 0 then ""
    else if |names| == 1 then names[0]
    else names[0] + SEPARATOR + Join(names[1..])
  }

  /** Splits at every ", ", like Python's `text.split(', ')`: always at least one part. */
  function Split(s: string): (parts: seq<string>)
    ensures |parts| > 0
    decreases |s|
  {
    if |s| == 0 then [""]
    else if |s| >= 2 && s[0] == ',' && s[1] == ' ' then [""] + Split(s[2..])
    else var rest := Split(s[1..]); [[s[0]] + rest[0]] + rest[1..]
  }

  lemma {:induction false} SplitCommaFree(x: string, tail: seq<string>, t: string)
    requires ',' !in x
    requires Split(t) == [""] + tail
    ensures Split(x + t) == [x] + tail
    decreases |x|
  {
    if |x| > 0 {
      assert (x + t)[1..] == x[1..] + t;
      SplitCommaFree(x[1..], tail, t);
      assert [x[0]] + x[1..] == x;
    } else {
      assert x + t == t;
    }
  }

  /** Splitting the joined text gives back exactly the names, provided none contains a comma. */
  lemma {:induction false} SplitJoin(names: seq<string>)
    requires |names| > 0
    requires forall i :: 0 <= i < |names| ==> ',' !in names[i]
    ensures Split(Join(names)) == names
    decreases |names|
  {
    if |names| == 1 {
      SplitCommaFree(names[0], [], "");
      assert names[0] + "" == names[0];
    } else {
      var rest := Join(names[1..]);
      SplitJoin(names[1..]);
      assert Split(SEPARATOR + rest) == [""] + Split(rest) by {
        assert (SEPARATOR + rest)[2..] == rest;
      }
      SplitCommaFree(names[0], Split(rest), SEPARATOR + rest);
      assert names[0] + SEPARATOR + rest == names[0] + (SEPARATOR + rest);
      assert names == [names[0]] + names[1..];
    }
  }
}
