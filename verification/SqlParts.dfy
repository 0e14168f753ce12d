/** Lists of output parts with separators between them. */
module SqlParts {
  import opened Wrappers
  import opened SqlTemplate

  const COMMA: Item := Text(", ")

  type ItemsResult = Result<seq<Item>, Error>
  type PartsResult = Result<seq<seq<Item>>, Error>

  /** The parts with a separator between each two of them. */
  function Join(sep: Item, parts: seq<seq<Item>>): seq<Item> {
    if parts == [] then []
    else if |parts| == 1 then parts[0]
    else Join(sep, parts[..|parts| - 1]) + [sep] + parts[|parts| - 1]
  }

  /** The separator the builder writes before its next part. */
  function Gap(sep: Item, emitted: nat): seq<Item> {
    if emitted > 0 then [sep] else []
  }

  lemma JoinAppend(sep: Item, parts: seq<seq<Item>>, part: seq<Item>)
    ensures Join(sep, parts + [part]) == Join(sep, parts) + Gap(sep, |parts|) + part
  {
    assert (parts + [part])[..|parts|] == parts;
  }

  lemma {:induction false} JoinCons(sep: Item, parts: seq<seq<Item>>)
    requires |parts| > 1
    ensures Join(sep, parts) == parts[0] + [sep] + Join(sep, parts[1..])
  {
    if |parts| == 2 {
      assert parts[..1] == [parts[0]] && parts[1..] == [parts[1]];
    } else {
      var front, last := parts[..|parts| - 1], parts[|parts| - 1];
      JoinCons(sep, front);
      assert parts[1..][..|parts| - 2] == front[1..];
      var x, y := parts[0] + [sep], Join(sep, front[1..]);
      assert Join(sep, parts[1..]) == y + [sep] + last;
      assert (x + y) + [sep] + last == x + (y + [sep] + last);
    }
  }

  /** One turn of an output loop: separator, then part, behind what was there. */
  lemma Grow(start: seq<Item>, sep: Item, parts: seq<seq<Item>>, part: seq<Item>, now: seq<Item>)
    requires now == start + Join(sep, parts) + Gap(sep, |parts|) + part
    ensures now == start + Join(sep, parts + [part])
  {
    JoinAppend(sep, parts, part);
    var a, b := Join(sep, parts), Gap(sep, |parts|);
    assert (start + a) + b == start + (a + b);
    assert (start + (a + b)) + part == start + ((a + b) + part);
  }
}
