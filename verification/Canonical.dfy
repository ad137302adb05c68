/**
 The type-tagged encoding of governed values: which values share an encoding.  Scalars
 are given by their exact spelling.
 */
module Canonical {
  import opened Options
  import opened JsonText

  datatype ScalarKind =
    | IntKind | FloatKind | StrKind | BytesKind
    | TimestampKind | PandasTimedeltaKind | DateTimeKind | DateKind
  {
    function Tag(): string {
      match this
      case IntKind => "int"
      case FloatKind => "float"
      case StrKind => "str"
      case BytesKind => "bytes"
      case TimestampKind => "pandas-timestamp"
      case PandasTimedeltaKind => "pandas-timedelta"
      case DateTimeKind => "datetime"
      case DateKind => "date"
    }
  }

  datatype MissingKind = NoneValue | PandasNa | PandasNat | FloatNan {
    function Tag(): string {
      match this
      case NoneValue => "none"
      case PandasNa => "pandas-missing"
      case PandasNat => "pandas-nat"
      case FloatNan => "float-missing"
    }
  }

  datatype SequenceKind = List | Tuple | Set | FrozenSet {
    function Tag(): string {
      match this
      case List => "list"
      case Tuple => "tuple"
      case Set => "set"
      case FrozenSet => "frozenset"
    }

    predicate Unordered() { Set? || FrozenSet? }
  }

  datatype RecordKind = Model | Dataclass {
    function Tag(): string { if Model? then "model" else "dataclass" }
  }

  datatype Pair = Pair(key: Value, value: Value)

  /** A Python value; sets and mappings list their members in iteration order. */
  datatype Value =
    | Missing(missing: MissingKind)
    | NumpyMissing(dtype: string)
    | Bool(truth: bool)
    | Scalar(kind: ScalarKind, text: string)
    | Timedelta(days: string, seconds: nat, microseconds: nat)
    | Enum(class_: string, member: string, underlying: Value)
    | NumpyScalar(dtype: string, underlying: Value)
    | Record(record: RecordKind, class_: string, underlying: Value)
    | NdArray(dtype: string, shape: seq<nat>, items: seq<Value>)
    | Sequence(sequence: SequenceKind, items: seq<Value>)
    | Mapping(entries: seq<Pair>)
    | Infinite
    | Unsupported

  // The encoding.

  /** Inserts in front of the first item whose key is not before its own. */
  function Insert(order: Order, key: Json -> seq<Token>, list: seq<Json>, item: Json): (longer: seq<Json>)
    ensures multiset(longer) == multiset(list) + multiset{item}
  {
    if list == [] || order(key(item), key(list[0])) then [item] + list
    else
      assert list == [list[0]] + list[1..];
      [list[0]] + Insert(order, key, list[1..], item)
  }

  /** Sorted by printed key; of equal keys the earlier stays first. */
  function Sort(order: Order, key: Json -> seq<Token>, list: seq<Json>): (sorted: seq<Json>)
    ensures multiset(sorted) == multiset(list)
  {
    if list == [] then []
    else
      assert list == [list[0]] + list[1..];
      Insert(order, key, Sort(order, key, list[1..]), list[0])
  }

  function EntryKey(entry: Json): seq<Token> {
    if entry.JArray? && entry.items != [] then Tokens(entry.items[0]) else []
  }

  /** Whether the encoding raises nothing on the value. */
  predicate Supported(v: Value) {
    match v
    case Infinite => false
    case Unsupported => false
    case Enum(_, _, underlying) => Supported(underlying)
    case NumpyScalar(_, underlying) => Supported(underlying)
    case Record(_, _, underlying) => Supported(underlying)
    case NdArray(_, _, items) => forall i | 0 <= i < |items| :: Supported(items[i])
    case Sequence(_, items) => forall i | 0 <= i < |items| :: Supported(items[i])
    case Mapping(entries) => forall i | 0 <= i < |entries| :: Supported(entries[i].key) && Supported(entries[i].value)
    case _ => true
  }

  function Tagged(tag: string): Json { JObject([Field("type", JText(tag))]) }

  function TaggedText(
      tag: string, text: string): Json { JObject([Field("type", JText(tag)), Field("value", JText(text))]) }

  /** The encoding of a supported value. */
  function Normalise(order: Order, v: Value): (j: Json)
    decreases v
  {
    match v
    case Missing(missing) => Tagged(missing.Tag())
    case NumpyMissing(dtype) => JObject([Field("dtype", JText(dtype)), Field("type", JText("numpy-missing"))])
    case Bool(truth) => JObject([Field("type", JText("bool")), Field("value", JBool(truth))])
    case Scalar(kind, text) => TaggedText(kind.Tag(), text)
    case Timedelta(days, seconds, microseconds) =>
      JObject([Field("days", JText(days)), Field("microseconds", JInt(microseconds)), Field("seconds", JInt(seconds)),
               Field("type", JText("timedelta"))])
    case Enum(class_, member, underlying) =>
      JObject([Field("class", JText(class_)), Field("member", JText(member)), Field("type", JText("enum")),
               Field("value", Normalise(order, underlying))])
    case NumpyScalar(dtype, underlying) =>
      JObject([Field("dtype", JText(dtype)), Field("type", JText("numpy-scalar")),
        Field("value", Normalise(order, underlying))])
    case Record(record, class_, underlying) =>
      JObject([Field("class", JText(class_)), Field("type", JText(record.Tag())),
        Field("value", Normalise(order, underlying))])
    case NdArray(dtype, shape, items) =>
      JObject([Field("dtype", JText(dtype)), Field("items", JArray(NormaliseItems(order, v, items))),
        Field("order", JText("C")),
               Field("shape", JArray(Lengths(shape))), Field("type", JText("numpy-ndarray"))])
    case Sequence(sequence, items) =>
      var encoded := NormaliseItems(order, v, items);
      JObject([Field("items", JArray(if sequence.Unordered() then Sort(order, Tokens, encoded) else encoded)),
               Field("type", JText(sequence.Tag()))])
    case Mapping(entries) =>
      JObject([Field("entries", JArray(Sort(order, EntryKey, NormaliseEntries(order, v, entries)))),
        Field("type", JText("mapping"))])
    case _ => Tagged("unsupported")
  }

  function Lengths(shape: seq<nat>): (numbers: seq<Json>)
    ensures |numbers| == |shape| && forall i | 0 <= i < |shape| :: numbers[i] == JInt(shape[i])
  {
    seq(|shape|, i requires 0 <= i < |shape| => JInt(shape[i]))
  }

  function NormaliseItems(order: Order, ghost owner: Value, items: seq<Value>): (encoded: seq<Json>)
    requires forall i | 0 <= i < |items| :: items[i] < owner
    ensures |encoded| == |items| && forall i | 0 <= i < |items| :: encoded[i] == Normalise(order, items[i])
    decreases owner, 0
  {
    seq(|items|, i requires 0 <= i < |items| => Normalise(order, items[i]))
  }

  function NormaliseEntries(order: Order, ghost owner: Value, entries: seq<Pair>): (encoded: seq<Json>)
    requires forall i | 0 <= i < |entries| :: entries[i].key < owner && entries[i].value < owner
    ensures |encoded| == |entries|
    ensures forall i | 0 <= i < |entries| ::
      encoded[i] == JArray([Normalise(order, entries[i].key), Normalise(order, entries[i].value)])
    decreases owner, 0
  {
    seq(|entries|, i requires 0 <= i < |entries| => JArray([Normalise(order, entries[i].key),
      Normalise(order, entries[i].value)]))
  }

  // Sameness of values, written without the encoding.

  ghost predicate Permutes(p: seq<nat>, n: nat) {
    && |p| == n && (forall i | 0 <= i < n :: p[i] < n)
    && (forall i, j | 0 <= i < j < n :: p[i] != p[j])
  }

  /** Equal values of equal types, whatever the order in which sets and mappings list their members. */
  ghost predicate Same(v: Value, w: Value)
    decreases v
  {
    match v
    case Enum(class_, member, underlying) => w.Enum? && w.class_ == class_ && w.member == member
      && Same(underlying, w.underlying)
    case NumpyScalar(dtype, underlying) => w.NumpyScalar? && w.dtype == dtype && Same(underlying, w.underlying)
    case Record(record, class_, underlying) => w.Record? && w.record == record && w.class_ == class_
      && Same(underlying, w.underlying)
    case NdArray(dtype, shape, items) =>
      w.NdArray? && w.dtype == dtype && w.shape == shape && |w.items| == |items|
      && forall i | 0 <= i < |items| :: Same(items[i], w.items[i])
    case Sequence(sequence, items) =>
      w.Sequence? && w.sequence == sequence && |w.items| == |items|
      && if sequence.Unordered() then
           exists p :: Permutes(p, |items|) && forall i | 0 <= i < |items| :: Same(items[i], w.items[p[i]])
         else forall i | 0 <= i < |items| :: Same(items[i], w.items[i])
    case Mapping(entries) =>
      w.Mapping? && |w.entries| == |entries|
      && exists p :: Permutes(p, |entries|) && forall i | 0 <= i < |entries| ::
           Same(entries[i].key, w.entries[p[i]].key) && Same(entries[i].value, w.entries[p[i]].value)
    case _ => v == w
  }

  /** In every mapping of the value, keys that encode alike have values that encode alike. */
  ghost predicate KeysDecide(order: Order, v: Value) {
    match v
    case Enum(_, _, underlying) => KeysDecide(order, underlying)
    case NumpyScalar(_, underlying) => KeysDecide(order, underlying)
    case Record(_, _, underlying) => KeysDecide(order, underlying)
    case NdArray(_, _, items) => forall i | 0 <= i < |items| :: KeysDecide(order, items[i])
    case Sequence(_, items) => forall i | 0 <= i < |items| :: KeysDecide(order, items[i])
    case Mapping(entries) =>
      && (forall i | 0 <= i < |entries| :: KeysDecide(order, entries[i].key) && KeysDecide(order, entries[i].value))
      && (forall i, j | 0 <= i < j < |entries|
        && Normalise(order, entries[i].key) == Normalise(order, entries[j].key) ::
            Normalise(order, entries[i].value) == Normalise(order, entries[j].value))
    case _ => true
  }

  /** The same, said of the values alone: in every mapping, keys that are the same typed value have values that are. */
  ghost predicate SameKeysDecide(v: Value) {
    match v
    case Enum(_, _, underlying) => SameKeysDecide(underlying)
    case NumpyScalar(_, underlying) => SameKeysDecide(underlying)
    case Record(_, _, underlying) => SameKeysDecide(underlying)
    case NdArray(_, _, items) => forall i | 0 <= i < |items| :: SameKeysDecide(items[i])
    case Sequence(_, items) => forall i | 0 <= i < |items| :: SameKeysDecide(items[i])
    case Mapping(entries) =>
      && (forall i | 0 <= i < |entries| :: SameKeysDecide(entries[i].key) && SameKeysDecide(entries[i].value))
      && (forall i, j | 0 <= i < j < |entries| && Same(entries[i].key, entries[j].key) ::
            Same(entries[i].value, entries[j].value))
    case _ => true
  }

  // Sorting forgets the order of its input, and nothing else.

  ghost predicate Ordered(order: Order, key: Json -> seq<Token>, list: seq<Json>) {
    forall i, j | 0 <= i < j < |list| :: order(key(list[i]), key(list[j]))
  }

  lemma {:induction false} InsertOrdered(order: Order, key: Json -> seq<Token>, list: seq<Json>, item: Json)
    requires Total(order) && Ordered(order, key, list)
    ensures Ordered(order, key, Insert(order, key, list, item))
  {
    if list != [] && !order(key(item), key(list[0])) {
      InsertOrdered(order, key, list[1..], item);
      var longer := Insert(order, key, list[1..], item);
      forall j | 0 <= j < |longer| ensures order(key(list[0]), key(longer[j])) {
        assert longer[j] in multiset(longer);
        if longer[j] != item { assert longer[j] in list[1..]; }
      }
    }
  }

  lemma {:induction false} SortOrdered(order: Order, key: Json -> seq<Token>, list: seq<Json>)
    requires Total(order)
    ensures Ordered(order, key, Sort(order, key, list))
  {
    if list != [] {
      SortOrdered(order, key, list[1..]);
      InsertOrdered(order, key, Sort(order, key, list[1..]), list[0]);
    }
  }

  ghost predicate KeyTells(key: Json -> seq<Token>, list: seq<Json>) {
    forall i, j | 0 <= i < |list| && 0 <= j < |list| && key(list[i]) == key(list[j]) :: list[i] == list[j]
  }

  lemma {:induction false} WithoutFirst(a: seq<Json>)
    requires a != []
    ensures multiset(a[1..]) == multiset(a) - multiset{a[0]}
  {
    assert a == [a[0]] + a[1..];
  }

  lemma {:induction false} FirstIsLeast(order: Order, key: Json -> seq<Token>, a: seq<Json>, b: seq<Json>)
    requires Total(order) && Ordered(order, key, a) && multiset(a) == multiset(b) && a != [] && b != []
    ensures order(key(a[0]), key(b[0]))
  {
    assert b[0] in multiset(a);
    var j :| 0 <= j < |a| && a[j] == b[0];
  }

  lemma TiedKeys(order: Order, k: seq<Token>, l: seq<Token>)
    requires Total(order) && order(k, l) && order(l, k)
    ensures k == l
  {
  }

  /** Two ordered lists of the same items are equal if keys tell the items apart. */
  lemma {:induction false} OrderedUnique(order: Order, key: Json -> seq<Token>, a: seq<Json>, b: seq<Json>)
    requires Total(order) && Ordered(order, key, a) && Ordered(order, key, b)
    requires multiset(a) == multiset(b) && KeyTells(key, a)
    ensures a == b
  {
    hide Total;
    assert |multiset(a)| == |a| && |multiset(b)| == |b|;
    if a != [] {
      FirstIsLeast(order, key, a, b);
      FirstIsLeast(order, key, b, a);
      assert order(key(a[0]), key(b[0])) && order(key(b[0]), key(a[0]));
      assert key(a[0]) == key(b[0]) by { TiedKeys(order, key(a[0]), key(b[0])); }
      assert b[0] in multiset(a);
      WithoutFirst(a);
      WithoutFirst(b);
      assert a == [a[0]] + a[1..] && b == [b[0]] + b[1..];
      OrderedUnique(order, key, a[1..], b[1..]);
    }
  }

  /** Sorting gives one result for all arrangements of items that keys tell apart. */
  lemma {:induction false} SortCanonical(order: Order, key: Json -> seq<Token>, a: seq<Json>, b: seq<Json>)
    requires Total(order) && multiset(a) == multiset(b) && KeyTells(key, a)
    ensures Sort(order, key, a) == Sort(order, key, b)
  {
    SortOrdered(order, key, a);
    SortOrdered(order, key, b);
    var sorted := Sort(order, key, a);
    forall i, j | 0 <= i < |sorted| && 0 <= j < |sorted| && key(sorted[i]) == key(sorted[j])
      ensures sorted[i] == sorted[j] {
      assert sorted[i] in multiset(a) && sorted[j] in multiset(a);
    }
    OrderedUnique(order, key, sorted, Sort(order, key, b));
  }

  function Without(b: seq<Json>, k: nat): (shorter: seq<Json>)
    requires k < |b|
    ensures |shorter| == |b| - 1 && forall i | 0 <= i < |shorter| :: shorter[i] == b[if i < k then i else i + 1]
  {
    b[..k] + b[k + 1..]
  }

  lemma {:induction false} WithoutOne(b: seq<Json>, k: nat)
    requires k < |b|
    ensures multiset(Without(b, k)) == multiset(b) - multiset{b[k]}
    ensures multiset(b) == multiset(Without(b, k)) + multiset{b[k]}
  {
    hide Without;
    assert b == b[..k] + [b[k]] + b[k + 1..];
    assert Without(b, k) == b[..k] + b[k + 1..];
  }

  /** The rearrangement without its last place. */
  function LeaveOut(p: seq<nat>, n: nat): (q: seq<nat>)
    requires Permutes(p, n + 1)
    ensures Permutes(q, n) && forall i | 0 <= i < n :: q[i] == if p[i] < p[n] then p[i] else p[i] - 1
  {
    seq(n, i requires 0 <= i < n => if p[i] < p[n] then p[i] else p[i] - 1)
  }

  lemma {:induction false} LeftOut(a: seq<Json>, b: seq<Json>, p: seq<nat>, q: seq<nat>)
    requires a != [] && Permutes(p, |a|) && |b| == |a| && (forall i | 0 <= i < |a| :: a[i] == b[p[i]])
      && q == LeaveOut(p, |a| - 1)
    ensures var (c, d) := (Without(a, |a| - 1), Without(b, p[|a| - 1])); forall i | 0 <= i < |c| :: c[i] == d[q[i]]
  {
  }

  /** A rearrangement holds the same items. */
  lemma {:induction false} PermutedItems(a: seq<Json>, b: seq<Json>, p: seq<nat>)
    requires Permutes(p, |a|) && |b| == |a| && forall i | 0 <= i < |a| :: a[i] == b[p[i]]
    ensures multiset(a) == multiset(b)
  {
    if a != [] {
      var n := |a| - 1;
      var q := LeaveOut(p, n);
      LeftOut(a, b, p, q);
      PermutedItems(Without(a, n), Without(b, p[n]), q);
      WithoutOne(a, n);
      WithoutOne(b, p[n]);
    }
  }

  lemma {:induction false} WithoutItems(a: seq<Json>, b: seq<Json>) returns (k: nat)
    requires multiset(a) == multiset(b) && a != []
    ensures k < |b| && b[k] == a[|a| - 1] && multiset(a[..|a| - 1]) == multiset(Without(b, k))
  {
    var n := |a| - 1;
    assert a[n] in multiset(b);
    k :| 0 <= k < |b| && b[k] == a[n];
    WithoutOne(a, n);
    WithoutOne(b, k);
    assert Without(a, n) == a[..n];
  }

  /** Lists with the same items are rearrangements of each other. */
  lemma {:induction false} FindPermutation(a: seq<Json>, b: seq<Json>) returns (p: seq<nat>)
    requires multiset(a) == multiset(b)
    ensures Permutes(p, |a|) && |b| == |a| && forall i | 0 <= i < |a| :: a[i] == b[p[i]]
  {
    if a == [] {
      assert |multiset(b)| == |b|;
      p := [];
    } else {
      var k := WithoutItems(a, b);
      var q := FindPermutation(a[..|a| - 1], Without(b, k));
      p := Extend(a, b, k, q);
    }
  }

  lemma {:induction false} Extend(a: seq<Json>, b: seq<Json>, k: nat, q: seq<nat>) returns (p: seq<nat>)
    requires a != [] && k < |b| && |b| == |a| && b[k] == a[|a| - 1] && Permutes(q, |a| - 1)
    requires forall i | 0 <= i < |a| - 1 :: a[i] == Without(b, k)[q[i]]
    ensures Permutes(p, |a|) && forall i | 0 <= i < |a| :: a[i] == b[p[i]]
  {
    p := MakeRoom(q, k, |a| - 1);
  }

  function MakeRoom(q: seq<nat>, k: nat, n: nat): (p: seq<nat>)
    requires Permutes(q, n) && k <= n
    ensures Permutes(p, n + 1) && p[n] == k && forall i | 0 <= i < n :: p[i] == if q[i] < k then q[i] else q[i] + 1
  {
    seq(n, i requires 0 <= i < n => if q[i] < k then q[i] else q[i] + 1) + [k]
  }

  // Equal encodings mean the same typed value.

  lemma {:induction false} EncodedAlike(order: Order, v: Value, w: Value)
    requires Normalise(order, v) == Normalise(order, w) && Supported(v) && Supported(w)
    ensures Same(v, w)
    decreases v
  {
    hide Sort, Lengths, NormaliseItems, NormaliseEntries;
    match v
    case Enum(_, _, underlying) => EncodedAlike(order, underlying, w.underlying);
    case NumpyScalar(_, underlying) => EncodedAlike(order, underlying, w.underlying);
    case Record(_, _, underlying) => EncodedAlike(order, underlying, w.underlying);
    case NdArray(_, _, _) => ArraysAlike(order, v, w);
    case Sequence(_, _) => SequencesAlike(order, v, w);
    case Mapping(_) => MappingsAlike(order, v, w);
    case _ => PlainAlike(order, v, w);
  }

  /** Values without parts are told apart by their encodings. */
  lemma {:induction false} PlainAlike(order: Order, v: Value, w: Value)
    requires Normalise(order, v) == Normalise(order, w) && Supported(v) && Supported(w)
    requires v.Missing? || v.NumpyMissing? || v.Bool? || v.Scalar? || v.Timedelta?
    ensures v == w
  {
    hide Sort, Lengths, NormaliseItems, NormaliseEntries;
  }

  lemma {:induction false} ArrayParts(order: Order, v: Value, w: Value)
    requires Normalise(order, v) == Normalise(order, w) && Supported(w) && v.NdArray?
    ensures w.NdArray? && v.dtype == w.dtype && v.shape == w.shape
    ensures NormaliseItems(order, v, v.items) == NormaliseItems(order, w, w.items)
  {
    hide Lengths, NormaliseItems;
    var (j, k) := (Normalise(order, v), Normalise(order, w));
    assert j.fields[4].value == k.fields[4].value;
    assert j.fields[0] == k.fields[0] && j.fields[1] == k.fields[1] && j.fields[3] == k.fields[3];
    assert forall i | 0 <= i < |v.shape| :: Lengths(v.shape)[i] == Lengths(w.shape)[i];
  }

  lemma {:induction false} ArraysAlike(order: Order, v: Value, w: Value)
    requires Normalise(order, v) == Normalise(order, w) && Supported(v) && Supported(w) && v.NdArray?
    ensures Same(v, w)
    decreases v, 0
  {
    hide Normalise, NormaliseItems;
    ArrayParts(order, v, w);
    var (a, b) := (NormaliseItems(order, v, v.items), NormaliseItems(order, w, w.items));
    forall i | 0 <= i < |v.items| ensures Same(v.items[i], w.items[i]) {
      assert a[i] == b[i];
      EncodedAlike(order, v.items[i], w.items[i]);
    }
  }

  lemma {:induction false} SequenceParts(order: Order, v: Value, w: Value)
    requires Normalise(order, v) == Normalise(order, w) && Supported(w) && v.Sequence?
    ensures w.Sequence? && v.sequence == w.sequence
    ensures var (a, b) := (NormaliseItems(order, v, v.items), NormaliseItems(order, w, w.items));
      if v.sequence.Unordered() then multiset(a) == multiset(b) else a == b
  {
    hide NormaliseItems, Sort;
    var (j, k) := (Normalise(order, v), Normalise(order, w));
    assert j.fields[0] == k.fields[0] && j.fields[1] == k.fields[1];
  }

  lemma {:induction false} SequencesAlike(order: Order, v: Value, w: Value)
    requires Normalise(order, v) == Normalise(order, w) && Supported(v) && Supported(w) && v.Sequence?
    ensures Same(v, w)
    decreases v, 0
  {
    hide Normalise, NormaliseItems;
    SequenceParts(order, v, w);
    var (a, b) := (NormaliseItems(order, v, v.items), NormaliseItems(order, w, w.items));
    if v.sequence.Unordered() {
      var p := FindPermutation(a, b);
      forall i | 0 <= i < |v.items| ensures Same(v.items[i], w.items[p[i]]) {
        assert a[i] == b[p[i]];
        EncodedAlike(order, v.items[i], w.items[p[i]]);
      }
    } else {
      forall i | 0 <= i < |v.items| ensures Same(v.items[i], w.items[i]) {
        assert a[i] == b[i];
        EncodedAlike(order, v.items[i], w.items[i]);
      }
    }
  }

  lemma {:induction false} MappingParts(order: Order, v: Value, w: Value)
    requires Normalise(order, v) == Normalise(order, w) && Supported(w) && v.Mapping?
    ensures w.Mapping?
    ensures multiset(NormaliseEntries(order, v, v.entries)) == multiset(NormaliseEntries(order, w, w.entries))
  {
    hide NormaliseEntries, Sort;
    var (j, k) := (Normalise(order, v), Normalise(order, w));
    assert j.fields[0] == k.fields[0] && j.fields[1] == k.fields[1];
  }

  lemma {:induction false} MappingsAlike(order: Order, v: Value, w: Value)
    requires Normalise(order, v) == Normalise(order, w) && Supported(v) && Supported(w) && v.Mapping?
    ensures Same(v, w)
    decreases v, 0
  {
    hide Normalise, NormaliseEntries;
    MappingParts(order, v, w);
    var (a, b) := (NormaliseEntries(order, v, v.entries), NormaliseEntries(order, w, w.entries));
    var p := FindPermutation(a, b);
    forall i | 0 <= i < |v.entries|
      ensures Same(v.entries[i].key, w.entries[p[i]].key) && Same(v.entries[i].value, w.entries[p[i]].value)
    {
      assert a[i].items[0] == b[p[i]].items[0] && a[i].items[1] == b[p[i]].items[1];
      EncodedAlike(order, v.entries[i].key, w.entries[p[i]].key);
      EncodedAlike(order, v.entries[i].value, w.entries[p[i]].value);
    }
  }

  // The same typed value has one encoding, if keys that encode alike have values that do.

  lemma {:induction false} SameEncodesAlike(order: Order, v: Value, w: Value)
    requires Total(order) && Same(v, w) && KeysDecide(order, v)
    ensures Normalise(order, v) == Normalise(order, w)
    decreases v
  {
    hide Sort;
    match v
    case Enum(_, _, underlying) => SameEncodesAlike(order, underlying, w.underlying);
    case NumpyScalar(_, underlying) => SameEncodesAlike(order, underlying, w.underlying);
    case Record(_, _, underlying) => SameEncodesAlike(order, underlying, w.underlying);
    case NdArray(_, _, items) =>
      forall i | 0 <= i < |items| ensures Normalise(order, items[i]) == Normalise(order, w.items[i]) {
        SameEncodesAlike(order, items[i], w.items[i]);
      }
      assert NormaliseItems(order, v, v.items) == NormaliseItems(order, w, w.items);
    case Sequence(_, _) => SameSequences(order, v, w);
    case Mapping(_) => SameMappings(order, v, w);
    case _ =>
  }

  lemma {:induction false} SameSequences(order: Order, v: Value, w: Value)
    requires Total(order) && Same(v, w) && KeysDecide(order, v) && v.Sequence?
    ensures Normalise(order, v) == Normalise(order, w)
    decreases v, 0
  {
    hide Sort, NormaliseItems, Tokens;
    var (a, b) := (NormaliseItems(order, v, v.items), NormaliseItems(order, w, w.items));
    if v.sequence.Unordered() {
      var p :| Permutes(p, |v.items|) && forall i | 0 <= i < |v.items| :: Same(v.items[i], w.items[p[i]]);
      forall i | 0 <= i < |v.items| ensures a[i] == b[p[i]] {
        SameEncodesAlike(order, v.items[i], w.items[p[i]]);
      }
      PermutedItems(a, b, p);
      forall i, j | 0 <= i < |a| && 0 <= j < |a| && Tokens(a[i]) == Tokens(a[j]) ensures a[i] == a[j] {
        PrintedAlike(a[i], a[j]);
      }
      SortCanonical(order, Tokens, a, b);
    } else {
      forall i | 0 <= i < |v.items| ensures a[i] == b[i] {
        SameEncodesAlike(order, v.items[i], w.items[i]);
      }
      assert a == b;
    }
  }

  lemma {:induction false} SameMappings(order: Order, v: Value, w: Value)
    requires Total(order) && Same(v, w) && KeysDecide(order, v) && v.Mapping?
    ensures Normalise(order, v) == Normalise(order, w)
    decreases v, 0
  {
    hide Sort, NormaliseEntries, Tokens, EntryKey;
    var (a, b) := (NormaliseEntries(order, v, v.entries), NormaliseEntries(order, w, w.entries));
    var p :| Permutes(p, |v.entries|) && forall i | 0 <= i < |v.entries| ::
      Same(v.entries[i].key, w.entries[p[i]].key) && Same(v.entries[i].value, w.entries[p[i]].value);
    forall i | 0 <= i < |v.entries| ensures a[i] == b[p[i]] {
      SameEncodesAlike(order, v.entries[i].key, w.entries[p[i]].key);
      SameEncodesAlike(order, v.entries[i].value, w.entries[p[i]].value);
    }
    PermutedItems(a, b, p);
    KeysTell(order, v);
    SortCanonical(order, EntryKey, a, b);
  }

  lemma {:induction false} KeysTell(order: Order, v: Value)
    requires v.Mapping? && KeysDecide(order, v)
    ensures KeyTells(EntryKey, NormaliseEntries(order, v, v.entries))
  {
    hide Tokens;
    var a := NormaliseEntries(order, v, v.entries);
    forall i, j | 0 <= i < |a| && 0 <= j < |a| && EntryKey(a[i]) == EntryKey(a[j]) ensures a[i] == a[j] {
      PrintedAlike(Normalise(order, v.entries[i].key), Normalise(order, v.entries[j].key));
    }
  }

  /**
   Two values encode alike if and only if they are the same typed value, as long as keys decide the
   entries of mappings.
   */
  lemma {:induction false} EncodingIsCanonical(order: Order, v: Value, w: Value)
    requires Total(order) && Supported(v) && Supported(w) && KeysDecide(order, v)
    ensures Normalise(order, v) == Normalise(order, w) <==> Same(v, w)
  {
    hide Normalise, Same, KeysDecide, Supported;
    if Normalise(order, v) == Normalise(order, w) { EncodedAlike(order, v, w); }
    if Same(v, w) { SameEncodesAlike(order, v, w); }
  }

  /** The order in which a value lists its members never shows in its encoding. */
  ghost predicate OrderFree(order: Order, v: Value) {
    forall w :: Same(v, w) ==> Normalise(order, v) == Normalise(order, w)
  }

  /** The first item with this key. */
  function FirstWith(key: Json -> seq<Token>, list: seq<Json>, k: seq<Token>): Option<Json> {
    if list == [] then None else if key(list[0]) == k then Some(list[0]) else FirstWith(key, list[1..], k)
  }

  lemma {:induction false} FirstInserted(
      order: Order, key: Json -> seq<Token>, list: seq<Json>, item: Json, k: seq<Token>)
    requires Total(order)
    ensures FirstWith(key, Insert(order, key, list, item), k) == if key(item) == k then Some(item)
      else FirstWith(key, list, k)
  {
    if list != [] && !order(key(item), key(list[0])) {
      FirstInserted(order, key, list[1..], item, k);
    }
  }

  /** Sorting is stable: of equal keys the first stays first. */
  lemma {:induction false} FirstStays(order: Order, key: Json -> seq<Token>, list: seq<Json>, k: seq<Token>)
    requires Total(order)
    ensures FirstWith(key, Sort(order, key, list), k) == FirstWith(key, list, k)
  {
    if list != [] {
      FirstStays(order, key, list[1..], k);
      FirstInserted(order, key, Sort(order, key, list[1..]), list[0], k);
    }
  }

  lemma {:induction false} SameItself(v: Value)
    ensures Same(v, v)
  {
    match v
    case Enum(_, _, underlying) => SameItself(underlying);
    case NumpyScalar(_, underlying) => SameItself(underlying);
    case Record(_, _, underlying) => SameItself(underlying);
    case NdArray(_, _, items) => forall i | 0 <= i < |items| { SameItself(items[i]); }
    case Sequence(_, items) =>
      var p: seq<nat> := seq(|items|, i requires 0 <= i < |items| => i);
      assert Permutes(p, |items|);
      forall i | 0 <= i < |items| ensures Same(items[i], v.items[p[i]]) { SameItself(items[i]); }
    case Mapping(entries) =>
      var p: seq<nat> := seq(|entries|, i requires 0 <= i < |entries| => i);
      assert Permutes(p, |entries|);
      forall i | 0 <= i < |entries|
        ensures Same(entries[i].key, v.entries[p[i]].key) && Same(entries[i].value, v.entries[p[i]].value)
      {
        SameItself(entries[i].key);
        SameItself(entries[i].value);
      }
    case _ =>
  }

  /** Moving one entry to the front lists the same mapping. */
  lemma {:induction false} MovedToFront(entries: seq<Pair>, j: nat) returns (moved: seq<Pair>)
    requires j < |entries|
    ensures |moved| == |entries| && moved[0] == entries[j] && Same(Mapping(entries), Mapping(moved))
  {
    moved := [entries[j]] + entries[..j] + entries[j + 1..];
    var p: seq<nat> := seq(|entries|, i requires 0 <= i < |entries| => if i == j then 0 else if i < j then i + 1
      else i);
    assert Permutes(p, |entries|);
    forall i | 0 <= i < |entries|
      ensures Same(entries[i].key, moved[p[i]].key) && Same(entries[i].value, moved[p[i]].value) {
      assert moved[p[i]] == entries[i];
      SameItself(entries[i].key);
      SameItself(entries[i].value);
    }
  }

  /** The first entry with a key is the first in the encoding with that key. */
  lemma {:induction false} FirstShows(order: Order, entries: seq<Pair>, k: seq<Token>)
    requires Total(order)
    ensures var v := Mapping(entries); var j := Normalise(order, v);
      && j.JObject? && |j.fields| == 2 && j.fields[0].value.JArray?
      && FirstWith(EntryKey, j.fields[0].value.items, k) == FirstWith(EntryKey, NormaliseEntries(order, v, entries), k)
  {
    hide EntryKey, Sort, FirstWith;
    FirstStays(order, EntryKey, NormaliseEntries(order, Mapping(entries), entries), k);
  }

  lemma {:induction false} FirstIsFound(key: Json -> seq<Token>, list: seq<Json>, j: nat)
    requires j < |list|
    ensures var first := FirstWith(key, list, key(list[j]));
      first.Some? && first.value in list && key(first.value) == key(list[j])
  {
    if key(list[0]) != key(list[j]) { FirstIsFound(key, list[1..], j - 1); }
  }

  /**
   Exactly when a mapping's insertion order cannot show: its members' own order never
   does, and keys that encode alike have values that do.
   */
  lemma {:induction false} MappingIsOrderFreeIff(order: Order, entries: seq<Pair>)
    requires Total(order)
    requires forall i | 0 <= i < |entries| :: OrderFree(order, entries[i].key) && OrderFree(order, entries[i].value)
    ensures OrderFree(order, Mapping(entries)) <==>
      KeyTells(EntryKey, NormaliseEntries(order, Mapping(entries), entries))
  {
    hide Normalise, Same, EntryKey, FirstWith, NormaliseEntries;
    var v := Mapping(entries);
    var a := NormaliseEntries(order, v, entries);
    if KeyTells(EntryKey, a) {
      forall w | Same(v, w) ensures Normalise(order, v) == Normalise(order, w) { TellingKeysSuffice(order, v, w); }
    }
    if OrderFree(order, v) {
      forall i, j | 0 <= i < |a| && 0 <= j < |a| && EntryKey(a[i]) == EntryKey(a[j]) ensures a[i] == a[j] {
        FirstIsTheEntry(order, entries, i);
        FirstIsTheEntry(order, entries, j);
      }
    }
  }

  /** If insertion order cannot show, every entry is the first with its key. */
  lemma {:induction false} FirstIsTheEntry(order: Order, entries: seq<Pair>, j: nat)
    requires Total(order) && OrderFree(order, Mapping(entries)) && j < |entries|
    ensures var a := NormaliseEntries(order, Mapping(entries), entries);
      FirstWith(EntryKey, a, EntryKey(a[j])) == Some(a[j])
  {
    hide Normalise, Same, EntryKey, NormaliseEntries;
    var a := NormaliseEntries(order, Mapping(entries), entries);
    var moved := MovedToFront(entries, j);
    var b := NormaliseEntries(order, Mapping(moved), moved);
    assert Normalise(order, Mapping(entries)) == Normalise(order, Mapping(moved));
    assert a[j] == b[0] by { assert entries[j] == moved[0]; }
    FirstShows(order, entries, EntryKey(a[j]));
    FirstShows(order, moved, EntryKey(a[j]));
  }

  lemma {:induction false} TellingKeysSuffice(order: Order, v: Value, w: Value)
    requires Total(order) && v.Mapping? && Same(v, w) && KeyTells(EntryKey, NormaliseEntries(order, v, v.entries))
    requires forall i | 0 <= i < |v.entries| ::
      OrderFree(order, v.entries[i].key) && OrderFree(order, v.entries[i].value)
    ensures Normalise(order, v) == Normalise(order, w)
  {
    hide Sort, NormaliseEntries, Tokens, EntryKey;
    var (a, b) := (NormaliseEntries(order, v, v.entries), NormaliseEntries(order, w, w.entries));
    var p :| Permutes(p, |v.entries|) && forall i | 0 <= i < |v.entries| ::
      Same(v.entries[i].key, w.entries[p[i]].key) && Same(v.entries[i].value, w.entries[p[i]].value);
    forall i | 0 <= i < |v.entries| ensures a[i] == b[p[i]] {
      assert OrderFree(order, v.entries[i].key) && OrderFree(order, v.entries[i].value);
    }
    PermutedItems(a, b, p);
    SortCanonical(order, EntryKey, a, b);
  }

  /** Replacing one item of a list by the same value leaves the same list. */
  lemma {:induction false} ReplacedItem(items: seq<Value>, i: nat, w: Value, j: nat)
    requires i < |items| && j < |items| && Same(items[i], w)
    ensures Same(items[j], items[i := w][j])
  {
    if j != i { SameItself(items[j]); }
  }

  lemma {:induction false} ReplacedSequence(v: Value, i: nat, w: Value)
    requires v.Sequence? && i < |v.items| && Same(v.items[i], w)
    ensures Same(v, v.(items := v.items[i := w]))
  {
    var items := v.items[i := w];
    var p: seq<nat> := seq(|items|, k requires 0 <= k < |items| => k);
    assert Permutes(p, |items|);
    forall j | 0 <= j < |items|
      ensures Same(v.items[j], items[j]) && Same(v.items[j], items[p[j]]) { ReplacedItem(v.items, i, w, j); }
  }

  lemma {:induction false} ReplacedEntry(entries: seq<Pair>, i: nat, e: Pair)
    requires i < |entries| && Same(entries[i].key, e.key) && Same(entries[i].value, e.value)
    ensures Same(Mapping(entries), Mapping(entries[i := e]))
  {
    var changed := entries[i := e];
    var p: seq<nat> := seq(|entries|, k requires 0 <= k < |entries| => k);
    assert Permutes(p, |entries|);
    forall j | 0 <= j < |entries|
      ensures Same(entries[j].key, changed[p[j]].key) && Same(entries[j].value, changed[p[j]].value) {
      SameItself(entries[j].key);
      SameItself(entries[j].value);
    }
  }

  /** A list that still holds the same items after one was replaced has had it replaced by itself. */
  lemma {:induction false} ReplacedByItself(a: seq<Json>, i: nat, x: Json)
    requires i < |a| && multiset(a[i := x]) == multiset(a)
    ensures a[i] == x
  {
    assert multiset(a[i := x]) == multiset(a) - multiset{a[i]} + multiset{x};
    assert multiset(a[i := x])[x] == multiset(a)[x] + if a[i] == x then 0 else 1;
  }

  /** Where the order of a list's items never shows, neither does the order within one of them. */
  lemma {:induction false} ItemIsOrderFree(order: Order, v: Value, i: nat)
    requires (v.NdArray? || v.Sequence?) && OrderFree(order, v) && i < |v.items|
    ensures OrderFree(order, v.items[i])
  {
    hide Sort;
    var a := NormaliseItems(order, v, v.items);
    forall w | Same(v.items[i], w) ensures Normalise(order, v.items[i]) == Normalise(order, w) {
      var changed := v.(items := v.items[i := w]);
      var b := NormaliseItems(order, changed, changed.items);
      assert b == a[i := Normalise(order, w)];
      if v.NdArray? {
        forall j | 0 <= j < |v.items| ensures Same(v.items[j], changed.items[j]) { ReplacedItem(v.items, i, w, j); }
        ArrayItemsAlike(order, v, changed);
      } else {
        ReplacedSequence(v, i, w);
        SequenceItemsAlike(order, v, changed);
        if v.sequence.Unordered() { ReplacedByItself(a, i, Normalise(order, w)); }
      }
    }
  }

  lemma {:induction false} ArrayItemsAlike(order: Order, v: Value, w: Value)
    requires v.NdArray? && w.NdArray? && Normalise(order, v) == Normalise(order, w)
    ensures NormaliseItems(order, v, v.items) == NormaliseItems(order, w, w.items)
  {
    hide Lengths, NormaliseItems;
    assert Normalise(order, v).fields[1] == Normalise(order, w).fields[1];
  }

  lemma {:induction false} SequenceItemsAlike(order: Order, v: Value, w: Value)
    requires v.Sequence? && w.Sequence? && v.sequence == w.sequence && Normalise(order, v) == Normalise(order, w)
    ensures var (a, b) := (NormaliseItems(order, v, v.items), NormaliseItems(order, w, w.items));
      if v.sequence.Unordered() then multiset(a) == multiset(b) else a == b
  {
    hide NormaliseItems, Sort;
    assert Normalise(order, v).fields[0] == Normalise(order, w).fields[0];
  }

  lemma {:induction false} EntryIsOrderFree(order: Order, entries: seq<Pair>, i: nat)
    requires OrderFree(order, Mapping(entries)) && i < |entries|
    ensures OrderFree(order, entries[i].key) && OrderFree(order, entries[i].value)
  {
    forall w | Same(entries[i].key, w) ensures Normalise(order, entries[i].key) == Normalise(order, w) {
      SameItself(entries[i].value);
      EntryAlike(order, entries, i, Pair(w, entries[i].value));
    }
    forall w | Same(entries[i].value, w) ensures Normalise(order, entries[i].value) == Normalise(order, w) {
      SameItself(entries[i].key);
      EntryAlike(order, entries, i, Pair(entries[i].key, w));
    }
  }

  lemma {:induction false} EntryAlike(order: Order, entries: seq<Pair>, i: nat, e: Pair)
    requires OrderFree(order, Mapping(entries)) && i < |entries|
    requires Same(entries[i].key, e.key) && Same(entries[i].value, e.value)
    ensures Normalise(order, entries[i].key) == Normalise(order, e.key)
      && Normalise(order, entries[i].value) == Normalise(order, e.value)
  {
    hide Sort, Same;
    var (v, w) := (Mapping(entries), Mapping(entries[i := e]));
    ReplacedEntry(entries, i, e);
    var (a, b) := (NormaliseEntries(order, v, v.entries), NormaliseEntries(order, w, w.entries));
    assert Normalise(order, v).fields[0] == Normalise(order, w).fields[0];
    var encoded := JArray([Normalise(order, e.key), Normalise(order, e.value)]);
    assert b == a[i := encoded];
    ReplacedByItself(a, i, encoded);
  }

  /** If order never shows in the whole value, it shows in no mapping inside it. */
  lemma {:induction false} OrderFreeKeysDecide(order: Order, v: Value)
    requires Total(order) && OrderFree(order, v)
    ensures KeysDecide(order, v)
  {
    hide OrderFree, Normalise, Same;
    match v
    case Enum(_, _, underlying) => UnderlyingIsOrderFree(order, v); OrderFreeKeysDecide(order, underlying);
    case NumpyScalar(_, underlying) => UnderlyingIsOrderFree(order, v); OrderFreeKeysDecide(order, underlying);
    case Record(_, _, underlying) => UnderlyingIsOrderFree(order, v); OrderFreeKeysDecide(order, underlying);
    case NdArray(_, _, items) =>
      forall i | 0 <= i < |items| ensures KeysDecide(order, items[i]) {
        ItemIsOrderFree(order, v, i);
        OrderFreeKeysDecide(order, items[i]);
      }
    case Sequence(_, items) =>
      forall i | 0 <= i < |items| ensures KeysDecide(order, items[i]) {
        ItemIsOrderFree(order, v, i);
        OrderFreeKeysDecide(order, items[i]);
      }
    case Mapping(entries) =>
      forall i | 0 <= i < |entries|
        ensures KeysDecide(order, entries[i].key) && KeysDecide(order, entries[i].value)
        ensures OrderFree(order, entries[i].key) && OrderFree(order, entries[i].value)
      {
        EntryIsOrderFree(order, entries, i);
        OrderFreeKeysDecide(order, entries[i].key);
        OrderFreeKeysDecide(order, entries[i].value);
      }
      MappingIsOrderFreeIff(order, entries);
      TellingEntries(order, entries);
    case _ =>
  }

  lemma {:induction false} UnderlyingIsOrderFree(order: Order, v: Value)
    requires (v.Enum? || v.NumpyScalar? || v.Record?) && OrderFree(order, v)
    ensures OrderFree(order, v.underlying)
  {
    forall w | Same(v.underlying, w) ensures Normalise(order, v.underlying) == Normalise(order, w) {
      var changed := v.(underlying := w);
      assert Same(v, changed);
      var (j, k) := (Normalise(order, v), Normalise(order, changed));
      assert j.fields[|j.fields| - 1] == k.fields[|k.fields| - 1];
    }
  }

  lemma {:induction false} TellingEntries(order: Order, entries: seq<Pair>)
    requires KeyTells(EntryKey, NormaliseEntries(order, Mapping(entries), entries))
    ensures forall i, j | 0 <= i < j < |entries|
      && Normalise(order, entries[i].key) == Normalise(order, entries[j].key) ::
      Normalise(order, entries[i].value) == Normalise(order, entries[j].value)
  {
    hide Normalise, Tokens;
    var a := NormaliseEntries(order, Mapping(entries), entries);
    forall i, j | 0 <= i < j < |entries| && Normalise(order, entries[i].key) == Normalise(order, entries[j].key)
      ensures Normalise(order, entries[i].value) == Normalise(order, entries[j].value)
    {
      assert EntryKey(a[i]) == EntryKey(a[j]);
      assert a[i].items[1] == a[j].items[1];
    }
  }

  /** Exactly when the order of members never shows: in every mapping, keys that encode alike have values that do. */
  lemma {:induction false} OrderFreeIffKeysDecide(order: Order, v: Value)
    requires Total(order)
    ensures OrderFree(order, v) <==> KeysDecide(order, v)
  {
    hide Normalise, Same, KeysDecide;
    if OrderFree(order, v) { OrderFreeKeysDecide(order, v); }
    if KeysDecide(order, v) {
      forall w | Same(v, w) ensures Normalise(order, v) == Normalise(order, w) { SameEncodesAlike(order, v, w); }
    }
  }

  /** Between two entries it makes no difference whether keys and values are compared or their encodings. */
  lemma {:induction false} EntriesDecideAlike(order: Order, e: Pair, f: Pair)
    requires Total(order) && Supported(e.key) && Supported(e.value) && Supported(f.key) && Supported(f.value)
    requires KeysDecide(order, e.key) && KeysDecide(order, e.value)
    ensures Normalise(order, e.key) == Normalise(order, f.key) <==> Same(e.key, f.key)
    ensures Normalise(order, e.value) == Normalise(order, f.value) <==> Same(e.value, f.value)
  {
    hide Normalise, Same, KeysDecide, Supported;
    EncodingIsCanonical(order, e.key, f.key);
    EncodingIsCanonical(order, e.value, f.value);
  }

  /** So the condition can be told from the value, without encoding anything. */
  lemma {:induction false} KeysDecideIff(order: Order, v: Value)
    requires Total(order) && Supported(v)
    ensures KeysDecide(order, v) <==> SameKeysDecide(v)
  {
    hide Normalise, Same;
    match v
    case Enum(_, _, underlying) => KeysDecideIff(order, underlying);
    case NumpyScalar(_, underlying) => KeysDecideIff(order, underlying);
    case Record(_, _, underlying) => KeysDecideIff(order, underlying);
    case NdArray(_, _, items) => forall i | 0 <= i < |items| { KeysDecideIff(order, items[i]); }
    case Sequence(_, items) => forall i | 0 <= i < |items| { KeysDecideIff(order, items[i]); }
    case Mapping(entries) =>
      forall i | 0 <= i < |entries|
        ensures KeysDecide(order, entries[i].key) <==> SameKeysDecide(entries[i].key)
        ensures KeysDecide(order, entries[i].value) <==> SameKeysDecide(entries[i].value)
      {
        KeysDecideIff(order, entries[i].key);
        KeysDecideIff(order, entries[i].value);
      }
      if forall i | 0 <= i < |entries| :: KeysDecide(order, entries[i].key) && KeysDecide(order, entries[i].value) {
        forall i, j | 0 <= i < j < |entries| { EntriesDecideAlike(order, entries[i], entries[j]); }
      }
    case _ =>
  }

  /** The order of members shows nowhere exactly when keys that are the same typed value have values that are. */
  lemma {:induction false} OrderFreeIffSameKeysDecide(order: Order, v: Value)
    requires Total(order) && Supported(v)
    ensures OrderFree(order, v) <==> SameKeysDecide(v)
  {
    hide OrderFree, KeysDecide, SameKeysDecide, Supported;
    OrderFreeIffKeysDecide(order, v);
    KeysDecideIff(order, v);
  }

  /** Two not-a-number keys encode alike, so with different values their insertion order shows. */
  lemma {:induction false} NanKeysShowOrder(order: Order)
    requires Total(order)
    ensures !OrderFree(order, Mapping([Pair(Missing(FloatNan), Bool(true)), Pair(Missing(FloatNan), Bool(false))]))
  {
    var entries := [Pair(Missing(FloatNan), Bool(true)), Pair(Missing(FloatNan), Bool(false))];
    var a := NormaliseEntries(order, Mapping(entries), entries);
    assert EntryKey(a[0]) == EntryKey(a[1]) && a[0].items[1] != a[1].items[1];
    if OrderFree(order, Mapping(entries)) {
      FirstIsTheEntry(order, entries, 0);
      FirstIsTheEntry(order, entries, 1);
    }
  }
}
