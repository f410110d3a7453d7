/** The separated-list helpers of the grammar: `sepBy1(sep, rule)` is
    `rule (sep rule)*` and `sepBy(sep, rule)` is `sepBy1` made optional. A list
    is given by the token strings of its items. */
module Lists {

  /** `rule (sep rule)*` over one or more items. */
  function SepBy1<T>(sep: T, items: seq<seq<T>>): (r: seq<T>)
    requires |items| > 0
    decreases |items|
  {
    if |items| == 1 then items[0] else items[0] + [sep] + SepBy1(sep, items[1..])
  }

  /** Concatenation is associative; called where a proof needs the regrouping. */
  lemma Assoc<T>(a: seq<T>, b: seq<T>, c: seq<T>)
    ensures a + b + c == a + (b + c)
  {
  }

  /** `optional(sepBy1(sep, rule))`. */
  function SepBy<T>(sep: T, items: seq<seq<T>>): seq<T> {
    if |items| == 0 then [] else SepBy1(sep, items)
  }

  function Count<T(==)>(x: T, s: seq<T>): nat {
    if |s| == 0 then 0 else (if s[0] == x then 1 else 0) + Count(x, s[1..])
  }

  lemma {:induction false} CountAppend<T>(x: T, a: seq<T>, b: seq<T>)
    ensures Count(x, a + b) == Count(x, a) + Count(x, b)
    decreases |a|
  {
    if |a| > 0 {
      assert (a + b)[0] == a[0];
      assert (a + b)[1..] == a[1..] + b;
      CountAppend(x, a[1..], b);
    } else {
      assert a + b == b;
    }
  }

  /** When no item contains the separator or is empty, a list of n items
      holds exactly n - 1 separators, its first and last tokens are not the
      separator, and its length is the items' lengths plus the separators. */
  lemma {:induction false} SepBy1Shape<T>(sep: T, items: seq<seq<T>>)
    requires |items| > 0
    requires forall i :: 0 <= i < |items| ==> |items[i]| > 0 && Count(sep, items[i]) == 0
    ensures var r := SepBy1(sep, items);
      && Count(sep, r) == |items| - 1
      && r[0] != sep
      && r[|r| - 1] != sep
    decreases |items|
  {
    var r := SepBy1(sep, items);
    assert items[0][0] != sep by {
      assert Count(sep, items[0]) == (if items[0][0] == sep then 1 else 0) + Count(sep, items[0][1..]);
    }
    if |items| > 1 {
      var tail := SepBy1(sep, items[1..]);
      SepBy1Shape(sep, items[1..]);
      CountAppend(sep, items[0] + [sep], tail);
      CountAppend(sep, items[0], [sep]);
      assert Count(sep, [sep]) == 1;
      assert r[|r| - 1] == tail[|tail| - 1];
    } else {
      var last := items[0];
      assert last[|last| - 1] != sep by {
        assert last == last[..|last| - 1] + [last[|last| - 1]];
        CountAppend(sep, last[..|last| - 1], [last[|last| - 1]]);
      }
    }
  }
}
