/** Sort-string and identifier helpers of helper/convert.go (ASCII letters only). */
module Convert {
  import opened Strings

  /** What one character becomes: an upper-case letter is lower-cased, with `_` before it unless it comes first. */
  function SnakePiece(c: char, first: bool): string
  {
    if IsUpper(c) then (if first then "" else "_") + [LowerChar(c)] else [c]
  }

  /** The snake-case form of `s`, read from left to right. */
  function Snake(s: string): string
  {
    if s == [] then "" else Snake(s[..|s| - 1]) + SnakePiece(s[|s| - 1], |s| == 1)
  }

  /** CamelToSnake: one pass over the characters, writing into a builder. */
  method CamelToSnake(s: string) returns (result: string)
    ensures result == Snake(s)
  {
    result := "";
    for i := 0 to |s|
      invariant result == Snake(s[..i])
    {
      var r := s[i];
      if IsUpper(r) {
        if i > 0 {
          result := result + "_";
        }
        result := result + [LowerChar(r)];
      } else {
        result := result + [r];
      }
      assert s[..i + 1][..i] == s[..i];
    }
    assert s[..|s|] == s;
  }

  /** Number of upper-case letters of `s`. */
  function UpperCount(s: string): nat
  {
    if s == [] then 0 else UpperCount(s[..|s| - 1]) + (if IsUpper(s[|s| - 1]) then 1 else 0)
  }

  /** The output holds no upper-case letter. */
  lemma {:induction false} SnakeHasNoUpper(s: string)
    ensures forall k :: 0 <= k < |Snake(s)| ==> !IsUpper(Snake(s)[k])
  {
    if s != [] {
      SnakeHasNoUpper(s[..|s| - 1]);
    }
  }

  /** A string without upper-case letters is its own snake form. */
  lemma {:induction false} SnakeOfLower(s: string)
    requires forall k :: 0 <= k < |s| ==> !IsUpper(s[k])
    ensures Snake(s) == s
  {
    if s != [] {
      SnakeOfLower(s[..|s| - 1]);
      assert s[..|s| - 1] + [s[|s| - 1]] == s;
    }
  }

  /** CamelToSnake is idempotent. */
  lemma SnakeIdempotent(s: string)
    ensures Snake(Snake(s)) == Snake(s)
  {
    SnakeHasNoUpper(s);
    SnakeOfLower(Snake(s));
  }

  /** One `_` is added per upper-case letter except one in first position. */
  lemma {:induction false} SnakeLength(s: string)
    ensures |Snake(s)| == |s| + UpperCount(s) - (if s != [] && IsUpper(s[0]) then 1 else 0)
  {
    if s != [] {
      SnakeLength(s[..|s| - 1]);
      if |s| > 1 {
        assert s[..|s| - 1][0] == s[0];
      }
    }
  }

  /** A character that is neither a letter nor `_` and is absent from the input is absent from the output. */
  lemma {:induction false} SnakeKeeps(s: string, c: char)
    requires c != '_' && !IsUpper(c) && !('a' <= c <= 'z') && c !in s
    ensures c !in Snake(s)
  {
    if s != [] {
      assert s[..|s| - 1] + [s[|s| - 1]] == s;
      SnakeKeeps(s[..|s| - 1], c);
      if IsUpper(s[|s| - 1]) {
        assert LowerChar(s[|s| - 1]) != c;
      }
    }
  }

  /** One comma-separated sort item: `field:dir` becomes `snake(field) dir`, a bare field `snake(field)`. */
  function SortPart(part: string): string
  {
    var subParts := Split(part, ':');
    if |subParts| > 1 then Snake(subParts[0]) + " " + subParts[1] else Snake(subParts[0])
  }

  function SortParts(parts: seq<string>): (r: seq<string>)
    ensures |r| == |parts|
    ensures forall i :: 0 <= i < |parts| ==> r[i] == SortPart(parts[i])
  {
    if parts == [] then [] else SortParts(parts[..|parts| - 1]) + [SortPart(parts[|parts| - 1])]
  }

  /** The ORDER BY text GetSortString produces. */
  function SortString(input: string): string
  {
    TrimSpace(Join(SortParts(Split(input, ',')), ", "))
  }

  lemma SortPartsSnoc(parts: seq<string>, i: nat)
    requires i < |parts|
    ensures SortParts(parts[..i + 1]) == SortParts(parts[..i]) + [SortPart(parts[i])]
  {
    assert parts[..i + 1][..i] == parts[..i];
  }

  /** GetSortString: transforms each comma part in a loop, then joins and trims. */
  method GetSortString(input: string) returns (r: string)
    ensures r == SortString(input)
  {
    var parts := Split(input, ',');
    var transformedParts: seq<string> := [];
    for i := 0 to |parts|
      invariant transformedParts == SortParts(parts[..i])
    {
      var subParts := Split(parts[i], ':');
      var snake := CamelToSnake(subParts[0]);
      var piece := snake;
      if |subParts| > 1 {
        piece := snake + " " + subParts[1];
      }
      assert piece == SortPart(parts[i]);
      SortPartsSnoc(parts, i);
      transformedParts := transformedParts + [piece];
    }
    assert parts[..|parts|] == parts;
    r := TrimSpace(Join(transformedParts, ", "));
  }

  // ---------------------------------------------------------------------------
  // Properties of GetSortString

  /** A transformed item carries no comma. */
  lemma SortPartHasNoComma(part: string)
    requires ',' !in part
    ensures Count(SortPart(part), ',') == 0
  {
    var sub := Split(part, ':');
    SplitPiecesLackSubset(part, ':', ',');
    assert sub[0] in sub;
    SnakeKeeps(sub[0], ',');
    AbsentCount(Snake(sub[0]), ',');
    if |sub| > 1 {
      assert sub[1] in sub;
      AbsentCount(sub[1], ',');
      CountConcat(Snake(sub[0]) + " ", sub[1], ',');
      CountConcat(Snake(sub[0]), " ", ',');
    }
  }

  /** Splitting never creates a character: a piece misses whatever the whole misses. */
  lemma {:induction false} SplitPiecesLackSubset(s: string, sep: char, c: char)
    requires c !in s
    ensures forall p :: p in Split(s, sep) ==> c !in p
  {
    if s != [] {
      SplitPiecesLackSubset(s[1..], sep, c);
      var rest := Split(s[1..], sep);
      assert rest[0] in rest;
      assert forall p :: p in rest[1..] ==> p in rest;
    }
  }

  lemma AbsentCount(s: string, c: char)
    requires c !in s
    ensures Count(s, c) == 0
  {
    CountAbsent(s, c);
  }

  lemma {:induction false} SumCountZero(parts: seq<string>)
    requires forall i :: 0 <= i < |parts| ==> ',' !in parts[i]
    ensures SumCount(SortParts(parts), ',') == 0
  {
    if parts != [] {
      var init := parts[..|parts| - 1];
      SumCountZero(init);
      SortPartHasNoComma(parts[|parts| - 1]);
      SumCountSnoc(SortParts(init), SortPart(parts[|parts| - 1]), ',');
    }
  }

  lemma {:induction false} SumCountSnoc(parts: seq<string>, last: string, c: char)
    ensures SumCount(parts + [last], c) == SumCount(parts, c) + Count(last, c)
  {
    if parts == [] {
      assert [] + [last] == [last];
      assert [last][1..] == [];
    } else {
      assert (parts + [last])[1..] == parts[1..] + [last];
      SumCountSnoc(parts[1..], last, c);
    }
  }

  /** The output has exactly as many commas as the input. */
  lemma SortStringCommas(input: string)
    ensures Count(SortString(input), ',') == Count(input, ',')
  {
    var parts := Split(input, ',');
    var transformed := SortParts(parts);
    var joined := Join(transformed, ", ");
    JoinedCommas(input);
    TrimSpaceCount(joined, ',');
  }

  lemma JoinedCommas(input: string)
    ensures Count(Join(SortParts(Split(input, ',')), ", "), ',') == Count(input, ',')
  {
    var parts := Split(input, ',');
    SplitLength(input, ',');
    PartsLackComma(input);
    SumCountZero(parts);
    var transformed := SortParts(parts);
    JoinCommas(transformed);
  }

  /** Joining comma-free items with ", " gives one comma fewer than items. */
  lemma JoinCommas(ts: seq<string>)
    requires |ts| >= 1 && SumCount(ts, ',') == 0
    ensures Count(Join(ts, ", "), ',') == |ts| - 1
  {
    JoinCount(ts, ", ", ',');
    CommaSpace();
  }

  lemma CommaSpace()
    ensures Count(", ", ',') == 1
  {
    assert ", "[1..] == " ";
    assert " "[1..] == "";
  }

  lemma PartsLackComma(input: string)
    ensures forall i :: 0 <= i < |Split(input, ',')| ==> ',' !in Split(input, ',')[i]
  {
    var parts := Split(input, ',');
    SplitPiecesLackSeparator(input, ',');
    forall i | 0 <= i < |parts| ensures ',' !in parts[i] {
      assert parts[i] in parts;
    }
  }

  /** The empty sort string stays empty. */
  lemma SortStringEmpty()
    ensures SortString("") == ""
  {
    assert Split("", ',') == [""];
    assert Split("", ':') == [""];
    assert SortParts([""]) == [SortPart("")];
  }

  /** Text after a second `:` in an item is dropped. */
  lemma SecondColonDropped(field: string, dir: string, rest: string)
    requires ':' !in field && ':' !in dir
    ensures SortPart(field + ":" + dir + ":" + rest) == Snake(field) + " " + dir
  {
    assert field + ":" + dir + ":" + rest == field + [':'] + (dir + [':'] + rest);
    SplitCons(field, ':', dir + [':'] + rest);
    SplitCons(dir, ':', rest);
  }

  /** An item `field:dir` without further colons maps to `snake(field) dir`; a bare item to `snake(item)`. */
  lemma SortPartCases(field: string, dir: string)
    requires ':' !in field && ':' !in dir
    ensures SortPart(field + ":" + dir) == Snake(field) + " " + dir
    ensures SortPart(field) == Snake(field)
  {
    assert field + ":" + dir == field + [':'] + dir;
    SplitCons(field, ':', dir);
    SplitWithout(dir, ':');
    SplitWithout(field, ':');
  }

  /** A bare item without a colon maps to its snake form. */
  lemma SortPartBare(field: string)
    requires ':' !in field
    ensures SortPart(field) == Snake(field)
  {
    SplitWithout(field, ':');
  }

  /** Two comma-free items: the sort string is the trimmed join of their transforms. */
  lemma SortStringOfTwo(input: string, a: string, b: string)
    requires ',' !in a && ',' !in b && input == a + "," + b
    ensures SortString(input) == TrimSpace(Join([SortPart(a), SortPart(b)], ", "))
  {
    assert input == a + [','] + b;
    SplitCons(a, ',', b);
    SplitWithout(b, ',');
    var parts := [a, b];
    assert parts[..1] == [a];
    assert SortParts(parts[..1]) == [SortPart(a)];
  }

  lemma ExampleJoin()
    ensures Join(["created_at desc", "name"], ", ") == "created_at desc, name"
  {
    JoinTwo("created_at desc", "name", "created_at desc, name");
  }

  lemma JoinTwo(a: string, b: string, ab: string)
    requires ab == a + ", " + b
    ensures Join([a, b], ", ") == ab
  {
    assert [a, b][1..] == [b];
  }

  lemma ExampleItems()
    ensures SortPart("createdAt:desc") == "created_at desc"
    ensures SortPart("name") == "name"
  {
    ExampleItemCreatedAt("createdAt:desc", "createdAt", "desc", "created_at desc");
    ExampleItemName();
  }

  lemma ExampleItemCreatedAt(part: string, field: string, dir: string, out: string)
    requires field == "createdAt" && dir == "desc" && part == field + ":" + dir && out == "created_at desc"
    ensures SortPart(part) == out
  {
    assert ':' !in field;
    assert ':' !in dir;
    SortPartCases(field, dir);
    SnakeCreatedAt(field);
  }

  lemma ExampleItemName()
    ensures SortPart("name") == "name"
  {
    SortPartBare("name");
    SnakeOfLower("name");
  }

  lemma SnakeCreatedAt(field: string)
    requires field == "createdAt"
    ensures Snake(field) == "created_at"
  {
    SnakeOfLower("created");
    assert field[..8] == "createdA";
    assert "createdA"[..7] == "created";
    assert Snake("createdA") == "created" + "_a";
  }
}
