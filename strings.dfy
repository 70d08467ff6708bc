/**
 * The JavaScript string operations the cloner relies on: `Array.prototype.join`,
 * `String.prototype.endsWith`, and, as the reading-side partner of `join`, splitting
 * a text at a one-character separator.
 */
module Strings {

  /** `items.join(sep)`: the items in order, with `sep` between neighbours; `""` for no items. */
  function Join(items: seq<string>, sep: string): string
  {
    if |items| == 0 then ""
    else if |items| == 1 then items[0]
    else items[0] + sep + Join(items[1..], sep)
  }

  /** Sum of the lengths of the items. */
  function TotalLength(items: seq<string>): nat
  {
    if |items| == 0 then 0 else |items[0]| + TotalLength(items[1..])
  }

  /** Where item `i` starts in `Join(items, sep)`: every earlier item and one separator after each. */
  function Offset(items: seq<string>, sep: string, i: nat): nat
    requires i <= |items|
  {
    if i == 0 then 0 else |items[0]| + |sep| + Offset(items[1..], sep, i - 1)
  }

  /** A joined text is as long as its items plus one separator between each neighbouring pair. */
  lemma {:induction false} JoinLength(items: seq<string>, sep: string)
    requires |items| > 0
    ensures |Join(items, sep)| == TotalLength(items) + (|items| - 1) * |sep|
  {
    if |items| > 1 {
      JoinLength(items[1..], sep);
    }
  }

  /** Item `i` appears verbatim at its offset in the joined text. */
  lemma {:induction false} JoinItemAt(items: seq<string>, sep: string, i: nat)
    requires i < |items|
    ensures Offset(items, sep, i) + |items[i]| <= |Join(items, sep)|
    ensures Join(items, sep)[Offset(items, sep, i) .. Offset(items, sep, i) + |items[i]|] == items[i]
  {
    var j := Join(items, sep);
    if |items| > 1 {
      var rest := Join(items[1..], sep);
      assert j == items[0] + sep + rest;
      if i == 0 {
        assert j[..|items[0]|] == items[0];
      } else {
        JoinItemAt(items[1..], sep, i - 1);
        var o := Offset(items[1..], sep, i - 1);
        var k := |items[0]| + |sep|;
        assert j[k + o .. k + o + |items[i]|] == rest[o .. o + |items[i]|];
      }
    }
  }

  /** Item `i + 1` starts one item and one separator after item `i`. */
  lemma {:induction false} OffsetNext(items: seq<string>, sep: string, i: nat)
    requires i < |items|
    ensures Offset(items, sep, i + 1) == Offset(items, sep, i) + |items[i]| + |sep|
  {
    if i > 0 {
      OffsetNext(items[1..], sep, i - 1);
    }
  }

  /** Between item `i` and item `i + 1` stands exactly one separator. */
  lemma {:induction false} JoinSeparatorAt(items: seq<string>, sep: string, i: nat)
    requires i + 1 < |items|
    ensures Offset(items, sep, i + 1) == Offset(items, sep, i) + |items[i]| + |sep|
    ensures Offset(items, sep, i + 1) <= |Join(items, sep)|
    ensures Join(items, sep)[Offset(items, sep, i) + |items[i]| .. Offset(items, sep, i + 1)] == sep
  {
    OffsetNext(items, sep, i);
    var j := Join(items, sep);
    var rest := Join(items[1..], sep);
    assert j == items[0] + sep + rest;
    if i == 0 {
      assert j[|items[0]| .. |items[0]| + |sep|] == sep;
    } else {
      JoinSeparatorAt(items[1..], sep, i - 1);
      var k := |items[0]| + |sep|;
      var a := Offset(items[1..], sep, i - 1) + |items[i]|;
      var b := Offset(items[1..], sep, i);
      assert j[k + a .. k + b] == rest[a .. b];
    }
  }

  /** Joining one more item appends a separator and that item. */
  lemma {:induction false} JoinSnoc(items: seq<string>, x: string, sep: string)
    requires |items| > 0
    ensures Join(items + [x], sep) == Join(items, sep) + sep + x
  {
    if |items| > 1 {
      assert (items + [x])[1..] == items[1..] + [x];
      JoinSnoc(items[1..], x, sep);
    }
  }

  /** `s.endsWith(suffix)`. */
  predicate EndsWith(s: string, suffix: string)
  {
    |suffix| <= |s| && s[|s| - |suffix|..] == suffix
  }

  /** A text ends with a suffix exactly when it is some text followed by that suffix. */
  lemma EndsWithIff(s: string, suffix: string)
    ensures EndsWith(s, suffix) <==> exists p :: s == p + suffix
  {
    if EndsWith(s, suffix) {
      assert s == s[..|s| - |suffix|] + suffix;
    }
    if p :| s == p + suffix {
      assert s[|s| - |suffix|..] == suffix;
    }
  }

  /** Splits a text at every occurrence of `c`; a text without `c` is one piece. */
  function Split(s: string, c: char): (r: seq<string>)
    ensures |r| >= 1
  {
    if |s| == 0 then [""]
    else
      var rest := Split(s[1..], c);
      if s[0] == c then [""] + rest else [[s[0]] + rest[0]] + rest[1..]
  }

  lemma {:induction false} SplitWithout(x: string, c: char)
    requires c !in x
    ensures Split(x, c) == [x]
  {
    if |x| > 0 {
      SplitWithout(x[1..], c);
      assert [x[0]] + x[1..] == x;
    }
  }

  lemma {:induction false} SplitAfterPiece(x: string, c: char, t: string)
    requires c !in x
    ensures Split(x + [c] + t, c) == [x] + Split(t, c)
  {
    var s := x + [c] + t;
    if |x| == 0 {
      assert s[1..] == t;
    } else {
      assert s[1..] == x[1..] + [c] + t;
      SplitAfterPiece(x[1..], c, t);
      assert [x[0]] + x[1..] == x;
    }
  }

  /** Splitting a joined text at its one-character separator gives back the items, when no item holds it. */
  lemma {:induction false} SplitJoin(items: seq<string>, c: char)
    requires |items| > 0
    requires forall i :: 0 <= i < |items| ==> c !in items[i]
    ensures Split(Join(items, [c]), c) == items
  {
    if |items| == 1 {
      SplitWithout(items[0], c);
    } else {
      SplitJoin(items[1..], c);
      SplitAfterPiece(items[0], c, Join(items[1..], [c]));
      assert [items[0]] + items[1..] == items;
    }
  }
}
