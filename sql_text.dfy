/** The text operation the update controllers use to build a SET clause,
    Python's `', '.join(fields)`, together with its inverse, splitting a
    clause back into its assignments at each `", "`. */
module SqlText {
  import opened Values

  const Separator: string := ", "

  /** The number of characters in all the texts together. */
  function TotalLength(xs: seq<string>): nat
  {
    if xs == [] then 0 else |xs[0]| + TotalLength(xs[1..])
  }

  /** `", ".join(xs)`: the elements in order, one separator between neighbours. */
  function Join(xs: seq<string>): string
  {
    if xs == [] then ""
    else if |xs| == 1 then xs[0]
    else xs[0] + Separator + Join(xs[1..])
  }

  /** The joined text holds every element's characters and two more for each
      separator, starts with the first element and ends with the last. */
  lemma {:induction false} JoinShape(xs: seq<string>)
    requires xs != []
    ensures |Join(xs)| == TotalLength(xs) + 2 * (|xs| - 1)
    ensures |xs[0]| <= |Join(xs)| && Join(xs)[..|xs[0]|] == xs[0]
    ensures |xs[|xs| - 1]| <= |Join(xs)| && Join(xs)[|Join(xs)| - |xs[|xs| - 1]|..] == xs[|xs| - 1]
  {
    if |xs| > 1 {
      var tail := xs[1..];
      JoinShape(tail);
      assert tail[|tail| - 1] == xs[|xs| - 1];
      assert Join(xs) == xs[0] + Separator + Join(tail);
    }
  }

  /** True when the text holds no comma, so no separator can start inside it. */
  predicate NoComma(s: string)
  {
    forall k :: 0 <= k < |s| ==> s[k] != ','
  }

  /** The position of the first `", "` in `s`, if there is one. */
  function FindSeparator(s: string): (r: Option<nat>)
    ensures r.Some? ==> r.value + 2 <= |s| && s[r.value] == ',' && s[r.value + 1] == ' '
    ensures r.Some? ==> forall k :: 0 <= k < r.value ==> !(s[k] == ',' && s[k + 1] == ' ')
    ensures r.None? ==> forall k :: 0 <= k < |s| - 1 ==> !(s[k] == ',' && s[k + 1] == ' ')
  {
    if |s| < 2 then None
    else if s[0] == ',' && s[1] == ' ' then Some(0)
    else match FindSeparator(s[1..])
      case None => None
      case Some(k) => Some(k + 1)
  }

  /** Cuts `s` at every `", "`, left to right. */
  function Split(s: string): (r: seq<string>)
    ensures |r| >= 1
    decreases |s|
  {
    match FindSeparator(s)
    case None => [s]
    case Some(k) => [s[..k]] + Split(s[k + 2..])
  }

  lemma FindSeparatorAfter(x: string, rest: string)
    requires NoComma(x)
    ensures FindSeparator(x + Separator + rest) == Some(|x|)
  {
    var s := x + Separator + rest;
    assert s[|x|] == ',' && s[|x| + 1] == ' ';
    var r := FindSeparator(s);
    if r.None? || r.value < |x| {
      assert false;
    }
  }

  /** A comma-free text followed by a separator splits off as the first piece. */
  lemma SplitAfter(x: string, rest: string)
    requires NoComma(x)
    ensures Split(x + Separator + rest) == [x] + Split(rest)
  {
    var s := x + Separator + rest;
    FindSeparatorAfter(x, rest);
    assert s[..|x|] == x;
    assert s[|x| + 2..] == rest;
  }

  /** Splitting a joined list gives the list back, as long as no element
      holds a comma. */
  lemma {:induction false} SplitJoin(xs: seq<string>)
    requires xs != []
    requires forall i :: 0 <= i < |xs| ==> NoComma(xs[i])
    ensures Split(Join(xs)) == xs
  {
    if |xs| == 1 {
      assert FindSeparator(xs[0]) == None;
    } else {
      var tail := xs[1..];
      assert Join(xs) == xs[0] + Separator + Join(tail);
      SplitAfter(xs[0], Join(tail));
      assert forall i :: 0 <= i < |tail| ==> NoComma(tail[i]) by {
        assert forall i :: 0 <= i < |tail| ==> tail[i] == xs[i + 1];
      }
      SplitJoin(tail);
      assert xs == [xs[0]] + tail;
    }
  }
}
