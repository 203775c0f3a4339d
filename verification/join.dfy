/**
 * Comma-separated display lists: `getStringFromArray` of the statistics table,
 * which agrees with `Array.prototype.join(', ')` on strings.
 */
module Join {

  const Separator: string := ", "

  /** Total length of the items of `xs`. */
  function TotalLength(xs: seq<string>): nat {
    if |xs| == 0 then 0 else TotalLength(xs[..|xs| - 1]) + |xs[|xs| - 1]|
  }

  /**
   * The items of `xs` in order, separated by ", ", with no separator before
   * the first item or after the last.
   */
  function Join(xs: seq<string>): string {
    if |xs| == 0 then ""
    else if |xs| == 1 then xs[0]
    else Join(xs[..|xs| - 1]) + Separator + xs[|xs| - 1]
  }

  /**
   * No items join to nothing; otherwise the text starts with the first item,
   * ends with the last, and adds one separator between each pair.
   */
  lemma {:induction false} JoinShape(xs: seq<string>)
    ensures |xs| == 0 ==> Join(xs) == ""
    ensures |xs| > 0 ==> |Join(xs)| == TotalLength(xs) + |Separator| * (|xs| - 1)
    ensures |xs| > 0 ==> |xs[0]| <= |Join(xs)| && Join(xs)[..|xs[0]|] == xs[0]
    ensures |xs| > 0 ==> |xs[|xs| - 1]| <= |Join(xs)| && Join(xs)[|Join(xs)| - |xs[|xs| - 1]|..] == xs[|xs| - 1]
  {
    if |xs| > 1 {
      var init := xs[..|xs| - 1];
      JoinShape(init);
      assert init[0] == xs[0];
      var r := Join(xs);
      assert r == Join(init) + Separator + xs[|xs| - 1];
      assert r[..|xs[0]|] == Join(init)[..|xs[0]|];
    }
  }

  /** The joined text is empty exactly for no items or a single empty item. */
  lemma JoinIsEmpty(xs: seq<string>)
    ensures Join(xs) == "" <==> |xs| == 0 || (|xs| == 1 && xs[0] == "")
  {
    JoinShape(xs);
  }

  /** `getStringFromArray`: appends each item, preceded by ", " unless it is the first. */
  method GetStringFromArray(items: seq<string>) returns (res: string)
    ensures res == Join(items)
  {
    res := "";
    var i := 0;
    while i < |items|
      invariant 0 <= i <= |items|
      invariant res == Join(items[..i])
    {
      assert items[..i + 1][..i] == items[..i];
      res := res + (if i == 0 then "" else Separator) + items[i];
      i := i + 1;
    }
    assert items[..|items|] == items;
  }

  /** Joining from the front: the first item, a separator, then the rest joined. */
  lemma {:induction false} JoinCons(xs: seq<string>)
    requires |xs| >= 2
    ensures Join(xs) == xs[0] + Separator + Join(xs[1..])
    decreases |xs|
  {
    if |xs| == 2 {
      assert xs[1..] == [xs[1]];
    } else {
      var init := xs[..|xs| - 1];
      JoinCons(init);
      assert init[1..] == xs[1..][..|xs[1..]| - 1];
      assert init[0] == xs[0];
    }
  }

  /** A character that is not part of the separator only appears in the joined text if some item holds it. */
  lemma {:induction false} JoinOmits(xs: seq<string>, c: char)
    requires c !in Separator
    requires forall i :: 0 <= i < |xs| ==> c !in xs[i]
    ensures c !in Join(xs)
  {
    if |xs| > 1 {
      JoinOmits(xs[..|xs| - 1], c);
    }
  }

  /**
   * Reads a display list back: cuts `s` at every ", ".  Every string splits
   * into at least one item.
   */
  function Split(s: string): (items: seq<string>)
    ensures |items| >= 1
  {
    if |s| == 0 then [""]
    else if |s| >= 2 && s[0] == ',' && s[1] == ' ' then [""] + Split(s[2..])
    else
      var rest := Split(s[1..]);
      [[s[0]] + rest[0]] + rest[1..]
  }

  /** A string without commas is a single item. */
  lemma {:induction false} SplitNoComma(x: string)
    requires ',' !in x
    ensures Split(x) == [x]
  {
    if |x| > 0 {
      assert ',' !in x[1..];
      SplitNoComma(x[1..]);
      assert [x[0]] + x[1..] == x;
    }
  }

  /** A comma-free item followed by ", " is split off as the first item. */
  lemma {:induction false} SplitFirst(x: string, t: string)
    requires ',' !in x
    ensures Split(x + Separator + t) == [x] + Split(t)
  {
    if |x| == 0 {
      assert x + Separator + t == [','] + [' '] + t;
    } else {
      var s := x + Separator + t;
      assert s[1..] == x[1..] + Separator + t;
      assert ',' !in x[1..];
      SplitFirst(x[1..], t);
      assert [x[0]] + x[1..] == x;
    }
  }

  /** Items without commas can be read back from their joined form. */
  lemma {:induction false} SplitJoin(xs: seq<string>)
    requires |xs| > 0
    requires forall i :: 0 <= i < |xs| ==> ',' !in xs[i]
    ensures Split(Join(xs)) == xs
    decreases |xs|
  {
    if |xs| == 1 {
      SplitNoComma(xs[0]);
    } else {
      JoinCons(xs);
      SplitFirst(xs[0], Join(xs[1..]));
      SplitJoin(xs[1..]);
      assert [xs[0]] + xs[1..] == xs;
    }
  }
}
