/** JSON trees and the texts they print as, given by their tokens. */
module JsonText {
  datatype Field = Field(name: string, value: Json)

  /** A JSON tree; fields stand in the order of their names. */
  datatype Json = JText(text: string) | JBool(truth: bool) | JInt(number: nat) | JArray(items: seq<Json>) | JObject(
    fields: seq<Field>)

  datatype Token = Str(text: string) | Truth(truth: bool) | Num(number: nat) | Punctuation(c: char)

  /** An order on printed texts. */
  type Order = (seq<Token>, seq<Token>) -> bool

  ghost predicate Total(order: Order) {
    && (forall a, b :: order(a, b) || order(b, a))
    && (forall a, b :: order(a, b) && order(b, a) ==> a == b)
    && (forall a, b, c :: order(a, b) && order(b, c) ==> order(a, c))
  }

  // Printing.

  function Tokens(j: Json): (tokens: seq<Token>)
    ensures tokens != [] && tokens[0] !in [Punctuation(','), Punctuation(']'), Punctuation('}')]
    decreases j, 1, 0, 0
  {
    match j
    case JText(text) => [Str(text)]
    case JBool(truth) => [Truth(truth)]
    case JInt(number) => [Num(number)]
    case JArray(_) => [Punctuation('[')] + ItemTokens(j, 0)
    case JObject(_) => [Punctuation('{')] + FieldTokens(j, 0)
  }

  /** The array from item `k` on, to its closing bracket. */
  function ItemTokens(j: Json, k: nat): seq<Token>
    requires j.JArray? && k <= |j.items|
    decreases j, 0, |j.items| - k, 1
  {
    if k == |j.items| then [Punctuation(']')] else Tokens(j.items[k]) + ItemRest(j, k)
  }

  function ItemRest(j: Json, k: nat): (rest: seq<Token>)
    requires j.JArray? && k < |j.items|
    ensures rest != [] && (rest[0] == if k + 1 < |j.items| then Punctuation(',') else Punctuation(']'))
    decreases j, 0, |j.items| - k, 0
  {
    (if k + 1 < |j.items| then [Punctuation(',')] else []) + ItemTokens(j, k + 1)
  }

  function FieldTokens(j: Json, k: nat): seq<Token>
    requires j.JObject? && k <= |j.fields|
    decreases j, 0, |j.fields| - k, 1
  {
    if k == |j.fields| then [Punctuation('}')]
    else [Str(j.fields[k].name), Punctuation(':')] + (Tokens(j.fields[k].value) + FieldRest(j, k))
  }

  function FieldRest(j: Json, k: nat): (rest: seq<Token>)
    requires j.JObject? && k < |j.fields|
    ensures rest != [] && (rest[0] == if k + 1 < |j.fields| then Punctuation(',') else Punctuation('}'))
    decreases j, 0, |j.fields| - k, 0
  {
    (if k + 1 < |j.fields| then [Punctuation(',')] else []) + FieldTokens(j, k + 1)
  }

  /** No printed tree begins another: what is printed determines the tree and where it ends. */
  lemma {:induction false} TokensDetermine(a: Json, b: Json, x: seq<Token>, y: seq<Token>)
    requires Tokens(a) + x == Tokens(b) + y
    ensures a == b && x == y
    decreases a, 1, 0, 0
  {
    var (s, t) := (Tokens(a) + x, Tokens(b) + y);
    assert Tokens(a)[0] == s[0] == t[0] == Tokens(b)[0];
    if a.JArray? {
      Behind([Punctuation('[')], ItemTokens(a, 0), x);
      Behind([Punctuation('[')], ItemTokens(b, 0), y);
      ItemsDetermine(a, b, 0, x, y);
    } else if a.JObject? {
      Behind([Punctuation('{')], FieldTokens(a, 0), x);
      Behind([Punctuation('{')], FieldTokens(b, 0), y);
      FieldsDetermine(a, b, 0, x, y);
    } else {
      assert s[1..] == x && t[1..] == y;
    }
  }

  lemma {:induction false} Behind(first: seq<Token>, second: seq<Token>, x: seq<Token>)
    ensures first + second + x == first + (second + x)
    ensures (first + second + x)[|first|..] == second + x
  {
    assert first + second + x == first + (second + x);
  }

  lemma {:induction false} ItemsDetermine(a: Json, b: Json, k: nat, x: seq<Token>, y: seq<Token>)
    requires a.JArray? && b.JArray? && k <= |a.items| && k <= |b.items|
    requires ItemTokens(a, k) + x == ItemTokens(b, k) + y
    ensures |a.items| == |b.items| && (forall i | k <= i < |a.items| :: a.items[i] == b.items[i]) && x == y
    decreases a, 0, |a.items| - k, 1
  {
    var (s, t) := (ItemTokens(a, k) + x, ItemTokens(b, k) + y);
    assert ItemTokens(a, k)[0] == s[0] == t[0] == ItemTokens(b, k)[0];
    if k == |a.items| {
      assert s[1..] == x && t[1..] == y;
    } else {
      Behind(Tokens(a.items[k]), ItemRest(a, k), x);
      Behind(Tokens(b.items[k]), ItemRest(b, k), y);
      TokensDetermine(a.items[k], b.items[k], ItemRest(a, k) + x, ItemRest(b, k) + y);
      ItemRestDetermines(a, b, k, x, y);
    }
  }

  lemma {:induction false} ItemRestDetermines(a: Json, b: Json, k: nat, x: seq<Token>, y: seq<Token>)
    requires a.JArray? && b.JArray? && k < |a.items| && k < |b.items|
    requires ItemRest(a, k) + x == ItemRest(b, k) + y
    ensures |a.items| == |b.items| && (forall i | k < i < |a.items| :: a.items[i] == b.items[i]) && x == y
    decreases a, 0, |a.items| - k, 0
  {
    hide Tokens;
    assert ItemRest(a, k)[0] == (ItemRest(a, k) + x)[0] == (ItemRest(b, k) + y)[0] == ItemRest(b, k)[0];
    var more := if k + 1 < |a.items| then [Punctuation(',')] else [];
    Behind(more, ItemTokens(a, k + 1), x);
    Behind(more, ItemTokens(b, k + 1), y);
    ItemsDetermine(a, b, k + 1, x, y);
  }

  lemma {:induction false} FieldsDetermine(a: Json, b: Json, k: nat, x: seq<Token>, y: seq<Token>)
    requires a.JObject? && b.JObject? && k <= |a.fields| && k <= |b.fields|
    requires FieldTokens(a, k) + x == FieldTokens(b, k) + y
    ensures |a.fields| == |b.fields| && (forall i | k <= i < |a.fields| :: a.fields[i] == b.fields[i]) && x == y
    decreases a, 0, |a.fields| - k, 1
  {
    var (s, t) := (FieldTokens(a, k) + x, FieldTokens(b, k) + y);
    assert FieldTokens(a, k)[0] == s[0] == t[0] == FieldTokens(b, k)[0];
    if k == |a.fields| {
      assert s[1..] == x && t[1..] == y;
    } else {
      FieldHead(a, k, x);
      FieldHead(b, k, y);
      TokensDetermine(a.fields[k].value, b.fields[k].value, FieldRest(a, k) + x, FieldRest(b, k) + y);
      FieldRestDetermines(a, b, k, x, y);
    }
  }

  lemma {:induction false} FieldHead(j: Json, k: nat, x: seq<Token>)
    requires j.JObject? && k < |j.fields|
    ensures (FieldTokens(j, k) + x)[0] == Str(j.fields[k].name)
    ensures (FieldTokens(j, k) + x)[2..] == Tokens(j.fields[k].value) + (FieldRest(j, k) + x)
  {
    hide Tokens, FieldRest;
    Behind([Str(j.fields[k].name), Punctuation(':')], Tokens(j.fields[k].value) + FieldRest(j, k), x);
    Behind(Tokens(j.fields[k].value), FieldRest(j, k), x);
  }

  lemma {:induction false} FieldRestDetermines(a: Json, b: Json, k: nat, x: seq<Token>, y: seq<Token>)
    requires a.JObject? && b.JObject? && k < |a.fields| && k < |b.fields|
    requires FieldRest(a, k) + x == FieldRest(b, k) + y
    ensures |a.fields| == |b.fields| && (forall i | k < i < |a.fields| :: a.fields[i] == b.fields[i]) && x == y
    decreases a, 0, |a.fields| - k, 0
  {
    hide Tokens;
    assert FieldRest(a, k)[0] == (FieldRest(a, k) + x)[0] == (FieldRest(b, k) + y)[0] == FieldRest(b, k)[0];
    var more := if k + 1 < |a.fields| then [Punctuation(',')] else [];
    Behind(more, FieldTokens(a, k + 1), x);
    Behind(more, FieldTokens(b, k + 1), y);
    FieldsDetermine(a, b, k + 1, x, y);
  }

  /** Trees print alike only if they are equal. */
  lemma {:induction false} PrintedAlike(a: Json, b: Json)
    requires Tokens(a) == Tokens(b)
    ensures a == b
  {
    assert Tokens(a) + [] == Tokens(a) && Tokens(b) + [] == Tokens(b);
    TokensDetermine(a, b, [], []);
  }
}
