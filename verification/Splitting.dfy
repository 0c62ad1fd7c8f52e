/** Go's strings.Split and strings.Join on a one-character separator. */
module Splitting {

  function Split(text: string, sep: char): (parts: seq<string>)
    ensures |parts| > 0
    ensures forall k :: 0 <= k < |parts| ==> sep !in parts[k]
  {
    if text == "" then [""]
    else
      var rest := Split(text[1..], sep);
      if text[0] == sep then [""] + rest else [[text[0]] + rest[0]] + rest[1..]
  }

  function Join(parts: seq<string>, sep: char): string {
    if |parts| == 0 then "" else if |parts| == 1 then parts[0] else parts[0] + [sep] + Join(parts[1..], sep)
  }

  lemma {:induction false} SplitOnePart(part: string, rest: string, sep: char)
    requires sep !in part
    ensures Split(part + [sep] + rest, sep) == [part] + Split(rest, sep)
    decreases |part|
  {
    if part == "" {
      assert part + [sep] + rest == [sep] + rest;
    } else {
      assert (part + [sep] + rest)[1..] == part[1..] + [sep] + rest;
      SplitOnePart(part[1..], rest, sep);
      assert [part[0]] + part[1..] == part;
      assert ([part[1..]] + Split(rest, sep))[1..] == Split(rest, sep);
    }
  }

  lemma {:induction false} SplitLastPart(part: string, sep: char)
    requires sep !in part
    ensures Split(part, sep) == [part]
    decreases |part|
  {
    if part != "" {
      SplitLastPart(part[1..], sep);
      assert [part[0]] + part[1..] == part;
    }
  }

  /** Splitting undoes joining, except that joining nothing reads back as one empty part. */
  lemma {:induction false} SplitOfJoin(parts: seq<string>, sep: char)
    requires |parts| > 0 && forall k :: 0 <= k < |parts| ==> sep !in parts[k]
    ensures Split(Join(parts, sep), sep) == parts
    decreases |parts|
  {
    if |parts| == 1 {
      SplitLastPart(parts[0], sep);
    } else {
      SplitOfJoin(parts[1..], sep);
      SplitOnePart(parts[0], Join(parts[1..], sep), sep);
    }
  }
}
