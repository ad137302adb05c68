/** Flat tag collections as Python prints them, read back into their items. */
module TagCollection {
  import opened Options

  predicate IsSpace(c: char) {
    var u := c as int;
    9 <= u <= 13 || u == 0x20 || u == 0x85 || u == 0xA0 || u == 0x1680 || 0x2000 <= u <= 0x200A
    || u == 0x2028 || u == 0x2029 || u == 0x202F || u == 0x205F || u == 0x3000
  }

  predicate IsQuote(c: char) { c == '\'' || c == '"' }

  function TrimLeft(s: string, drop: char -> bool): (t: string)
    ensures t == "" || !drop(t[0])
    ensures s != "" && !drop(s[0]) ==> t == s
  {
    if s != "" && drop(s[0]) then TrimLeft(s[1..], drop) else s
  }

  function TrimRight(s: string, drop: char -> bool): (t: string)
    ensures t == "" || !drop(t[|t| - 1])
    ensures s != "" && !drop(s[|s| - 1]) ==> t == s
  {
    if s != "" && drop(s[|s| - 1]) then TrimRight(s[..|s| - 1], drop) else s
  }

  function Trim(s: string): string { TrimRight(TrimLeft(s, IsSpace), IsSpace) }

  /** One item without the space around it and without quotes at its ends. */
  function CleanCollectionItem(s: string): string {
    Trim(TrimRight(TrimLeft(Trim(s), IsQuote), IsQuote))
  }

  /** The items from here on: `current` is what has been read of the first, `quote` the quote it is inside. */
  function Scan(s: string, current: string, quote: Option<char>): seq<string> {
    if s == "" then [CleanCollectionItem(current)]
    else if quote == Some(s[0]) then Scan(s[1..], current, None)
    else if quote.None? && IsQuote(s[0]) then Scan(s[1..], current, Some(s[0]))
    else if quote.None? && s[0] == ',' then [CleanCollectionItem(current)] + Scan(s[1..], "", None)
    else Scan(s[1..], current + [s[0]], quote)
  }

  function NonEmpty(values: seq<string>): seq<string> {
    if values == [] then [] else (if values[0] != "" then [values[0]] else []) + NonEmpty(values[1..])
  }

  /** Texts in the order of their code points. */
  predicate AtMost(a: string, b: string) {
    a == "" || (b != "" && (a[0] < b[0] || (a[0] == b[0] && AtMost(a[1..], b[1..]))))
  }

  function Insert(sorted: seq<string>, value: string): (longer: seq<string>)
    ensures multiset(longer) == multiset(sorted) + multiset{value}
  {
    if sorted == [] || AtMost(value, sorted[0]) then [value] + sorted
    else
      assert sorted == [sorted[0]] + sorted[1..];
      [sorted[0]] + Insert(sorted[1..], value)
  }

  function Sort(values: seq<string>): (sorted: seq<string>)
    ensures multiset(sorted) == multiset(values)
  {
    if values == [] then []
    else
      assert values == [values[0]] + values[1..];
      Insert(Sort(values[1..]), values[0])
  }

  predicate Ordered(values: seq<string>) {
    forall i | 0 <= i < |values| - 1 :: AtMost(values[i], values[i + 1])
  }

  lemma {:induction false} AtMostTotal(a: string, b: string)
    ensures AtMost(a, b) || AtMost(b, a)
  {
    if a != "" && b != "" && a[0] == b[0] { AtMostTotal(a[1..], b[1..]); }
  }

  lemma {:induction false} InsertOrdered(sorted: seq<string>, value: string)
    requires Ordered(sorted)
    ensures Ordered(Insert(sorted, value))
    ensures Insert(sorted, value)[0] == value || (sorted != [] && Insert(sorted, value)[0] == sorted[0])
  {
    if sorted != [] && !AtMost(value, sorted[0]) {
      AtMostTotal(value, sorted[0]);
      InsertOrdered(sorted[1..], value);
    }
  }

  lemma {:induction false} SortOrdered(values: seq<string>)
    ensures Ordered(Sort(values))
  {
    if values != [] {
      SortOrdered(values[1..]);
      InsertOrdered(Sort(values[1..]), values[0]);
    }
  }

  /** The brackets a collection is printed in. */
  datatype Kind = List | Tuple | Set {
    function Opening(): char { match this case List => '[' case Tuple => '(' case Set => '{' }

    function Closing(): char { match this case List => ']' case Tuple => ')' case Set => '}' }
  }

  function KindOf(trimmed: string): (kind: Option<Kind>)
    ensures kind.Some? ==>
      |trimmed| >= 2 && trimmed[0] == kind.value.Opening() && trimmed[|trimmed| - 1] == kind.value.Closing()
  {
    if trimmed == "" then None
    else
      var (first, last) := (trimmed[0], trimmed[|trimmed| - 1]);
      if first == '[' && last == ']' then Some(List)
      else if first == '(' && last == ')' then Some(Tuple)
      else if first == '{' && last == '}' then Some(Set)
      else None
  }

  /** What a text reads as: none if it is no collection, and a set's items sorted. */
  function Parsed(text: string): Option<seq<string>> {
    var trimmed := Trim(text);
    var kind := KindOf(trimmed);
    if kind.None? then None
    else
      var inner := Trim(trimmed[1..|trimmed| - 1]);
      if inner == "" then Some([])
      else
        var values := NonEmpty(Scan(inner, "", None));
        Some(if kind == Some(Set) then Sort(values) else values)
  }

  method ParseStringifiedCollection(text: string) returns (r: Option<seq<string>>)
    ensures r == Parsed(text)
  {
    var trimmed := Trim(text);
    var kind := KindOf(trimmed);
    if kind.None? {
      return None;
    }
    var inner := Trim(trimmed[1..|trimmed| - 1]);
    if inner == "" {
      return Some([]);
    }
    var values := SplitItems(inner);
    values := NonEmpty(values);
    r := Some(if kind == Some(Set) then Sort(values) else values);
  }

  /** Reads character by character; a comma inside quotes belongs to its item. */
  method SplitItems(inner: string) returns (values: seq<string>)
    ensures values == Scan(inner, "", None)
  {
    hide CleanCollectionItem, IsQuote;
    values := [];
    var current := "";
    var quote: Option<char> := None;
    for i := 0 to |inner|
      invariant values + Scan(inner[i..], current, quote) == Scan(inner, "", None)
    {
      var c := inner[i];
      ScanStep(inner[i..], current, quote);
      assert inner[i..][1..] == inner[i + 1..];
      if quote == Some(c) {
        quote := None;
      } else if quote.None? && IsQuote(c) {
        quote := Some(c);
      } else if quote.None? && c == ',' {
        values := values + [CleanCollectionItem(current)];
        current := "";
      } else {
        current := current + [c];
      }
    }
    assert inner[|inner|..] == "";
    values := values + [CleanCollectionItem(current)];
  }

  lemma ScanStep(s: string, current: string, quote: Option<char>)
    requires s != ""
    ensures Scan(s, current, quote) ==
      if quote == Some(s[0]) then Scan(s[1..], current, None)
      else if quote.None? && IsQuote(s[0]) then Scan(s[1..], current, Some(s[0]))
      else if quote.None? && s[0] == ',' then [CleanCollectionItem(current)] + Scan(s[1..], "", None)
      else Scan(s[1..], current + [s[0]], quote)
  {
  }

  // Printing, and reading back what was printed.

  /** An item that cleaning leaves alone and that holds no single quote; commas and inner spaces are welcome. */
  predicate Plain(item: string) {
    item != "" && CleanCollectionItem(item) == item && '\'' !in item
  }

  function Quoted(item: string): string { "'" + item + "'" }

  /** The items quoted and separated as Python prints them. */
  function Joined(items: seq<string>, trailing: bool): string {
    if items == [] then ""
    else if |items| == 1 then Quoted(items[0]) + if trailing then "," else ""
    else Quoted(items[0]) + ", " + Joined(items[1..], trailing)
  }

  function Printed(kind: Kind, items: seq<string>, trailing: bool): string {
    [kind.Opening()] + Joined(items, trailing) + [kind.Closing()]
  }

  /** Inside single quotes everything up to the closing quote is read as it stands. */
  lemma {:induction false} ScanInside(item: string, rest: string, current: string)
    requires '\'' !in item
    ensures Scan(item + "'" + rest, current, Some('\'')) == Scan(rest, current + item, None)
  {
    var s := item + "'" + rest;
    if item == "" {
      assert s[1..] == rest && current + item == current;
    } else {
      assert s[0] == item[0] && s[1..] == item[1..] + "'" + rest;
      ScanInside(item[1..], rest, current + [item[0]]);
      assert current + [item[0]] + item[1..] == current + item;
    }
  }

  lemma {:induction false} ScanQuoted(item: string, rest: string, current: string)
    requires '\'' !in item
    ensures Scan(Quoted(item) + rest, current, None) == Scan(rest, current + item, None)
  {
    var s := Quoted(item) + rest;
    assert s[0] == '\'' && s[1..] == item + "'" + rest;
    ScanInside(item, rest, current);
  }

  /** Space before an item does not change what it cleans to. */
  lemma {:induction false} CleanIgnoresSpace(item: string)
    ensures CleanCollectionItem(" " + item) == CleanCollectionItem(item)
  {
    assert (" " + item)[1..] == item;
  }

  /** A comma behind an item ends it. */
  lemma {:induction false} ScanComma(item: string, space: string, rest: string)
    requires Plain(item) && space in ["", " "]
    ensures Scan("," + rest, space + item, None) == [item] + Scan(rest, "", None)
  {
    hide CleanCollectionItem;
    CleanIgnoresSpace(item);
    assert space + item == item || space + item == " " + item;
    assert ("," + rest)[1..] == rest;
  }

  lemma {:induction false} ScanSpace(rest: string)
    ensures Scan(" " + rest, "", None) == Scan(rest, " ", None)
  {
    assert (" " + rest)[1..] == rest && "" + [' '] == " ";
  }

  lemma {:induction false} NonEmptyCons(item: string, values: seq<string>)
    requires item != ""
    ensures NonEmpty([item] + values) == [item] + NonEmpty(values)
  {
    assert ([item] + values)[1..] == values;
  }

  lemma {:induction false} ScanJoined(items: seq<string>, trailing: bool, space: string)
    requires items != [] && (forall i | 0 <= i < |items| :: Plain(items[i])) && space in ["", " "]
    ensures NonEmpty(Scan(Joined(items, trailing), space, None)) == items
  {
    hide Scan, CleanCollectionItem, NonEmpty, Quoted;
    var item := items[0];
    if |items| > 1 {
      var rest := Joined(items[1..], trailing);
      assert Joined(items, trailing) == Quoted(item) + ("," + (" " + rest));
      ScanQuoted(item, "," + (" " + rest), space);
      ScanComma(item, space, " " + rest);
      ScanSpace(rest);
      ScanJoined(items[1..], trailing, " ");
      NonEmptyCons(item, Scan(rest, " ", None));
      assert items == [item] + items[1..];
    } else {
      ScanLast(item, trailing, space);
      assert items == [item];
    }
  }

  lemma {:induction false} ScanLast(item: string, trailing: bool, space: string)
    requires Plain(item) && space in ["", " "]
    ensures NonEmpty(Scan(Joined([item], trailing), space, None)) == [item]
  {
    hide CleanCollectionItem, Quoted;
    if trailing {
      assert Joined([item], trailing) == Quoted(item) + ("," + "");
      ScanQuoted(item, "," + "", space);
      ScanComma(item, space, "");
      CleanNothing();
      NonEmptyCons(item, [""]);
      assert [""][1..] == [];
    } else {
      assert Joined([item], trailing) == Quoted(item) + "";
      ScanQuoted(item, "", space);
      CleanIgnoresSpace(item);
      assert space + item == item || space + item == " " + item;
      NonEmptyCons(item, []);
      assert [item] + [] == [item];
    }
  }

  lemma CleanNothing()
    ensures CleanCollectionItem("") == ""
  {
  }

  /**
   Reading back what Python printed gives the same items, and for a set the same
   items in order; a comma behind the last item and space around the text change nothing.
   */
  lemma {:induction false} RoundTrip(kind: Kind, items: seq<string>, trailing: bool, left: string, right: string)
    requires forall i | 0 <= i < |items| :: Plain(items[i])
    requires (forall c <- left :: IsSpace(c)) && (forall c <- right :: IsSpace(c))
    ensures Parsed(left + Printed(kind, items, trailing) + right) == Some(if kind == Set then Sort(items) else items)
  {
    hide Scan, CleanCollectionItem, NonEmpty, Joined, Plain, Trim, Sort;
    var core := Printed(kind, items, trailing);
    BracketsFound(kind, Joined(items, trailing));
    TrimPadded(left, core, right);
    assert core[1..|core| - 1] == Joined(items, trailing);
    if items != [] {
      JoinedEnds(items, trailing);
      assert "" + Joined(items, trailing) + "" == Joined(items, trailing);
      TrimPadded("", Joined(items, trailing), "");
      ScanJoined(items, trailing, "");
    } else {
      NothingPrinted(trailing);
    }
  }

  lemma NothingPrinted(trailing: bool)
    ensures Joined([], trailing) == "" && Trim("") == "" && Sort([]) == []
  {
  }

  lemma BracketsFound(kind: Kind, inner: string)
    ensures var core := [kind.Opening()] + inner + [kind.Closing()];
      KindOf(core) == Some(kind) && !IsSpace(core[0]) && !IsSpace(core[|core| - 1])
  {
  }

  lemma {:induction false} JoinedEnds(items: seq<string>, trailing: bool)
    requires items != []
    ensures var s := Joined(items, trailing); s != "" && !IsSpace(s[0]) && !IsSpace(s[|s| - 1])
  {
    if |items| > 1 { JoinedEnds(items[1..], trailing); }
  }

  lemma {:induction false} TrimPadded(left: string, core: string, right: string)
    requires core != "" && !IsSpace(core[0]) && !IsSpace(core[|core| - 1])
    requires (forall c <- left :: IsSpace(c)) && (forall c <- right :: IsSpace(c))
    ensures Trim(left + core + right) == core
    decreases |left| + |right|
  {
    var s := left + core + right;
    if left != "" {
      assert s[0] == left[0] && s[1..] == left[1..] + core + right;
      TrimPadded(left[1..], core, right);
    } else if right != "" {
      assert s[0] == core[0] && TrimLeft(s, IsSpace) == s;
      var shorter := core + right[..|right| - 1];
      assert s[|s| - 1] == right[|right| - 1] && s[..|s| - 1] == shorter == "" + core + right[..|right| - 1];
      assert shorter[0] == core[0] && TrimLeft(shorter, IsSpace) == shorter;
      TrimPadded("", core, right[..|right| - 1]);
    } else {
      assert s == core;
    }
  }
}
