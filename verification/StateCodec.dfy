/**
  Saved group state: values are encoded without their types, and decoded by the
  types they are to have.
 */
module StateCodec {
  import opened Basics

  datatype Scalar = Number(n: int) | Text(s: string) | Raw(b: Bytes) | Flag(f: bool)

  /** What is saved. */
  datatype Data = Null | Plain(scalar: Scalar) | Mapping(fields: seq<(string, Data)>) | Array(items: seq<Data>)

  /** A value in memory. An enum member stands for its value; a dictionary is
      its entries, in the order they were put in. */
  datatype Value =
    | Nothing
    | Atom(scalar: Scalar)
    | Member(data: Data)
    | Object(fields: seq<(string, Value)>)
    | Dictionary(entries: seq<(Value, Value)>)
    | Listed(items: seq<Value>)
    | Tupled(items: seq<Value>)

  /** A type. A field has the default its class gives it, if any. */
  datatype Kind =
    | Scalars
    | Optional(inner: Kind)
    | Record(fields: seq<Field>)
    | Enum(members: seq<Data>)
    | DictOf(key: Kind, item: Kind)
    | ListOf(each: Kind)
    | Tuple(kinds: seq<Kind>)
    | TupleOf(each: Kind)

  datatype Field = Field(name: string, kind: Kind, default: Option<Value>)

  /** `_encode` */
  function Encode(v: Value): Data {
    match v
    case Nothing => Null
    case Atom(scalar) => Plain(scalar)
    case Member(data) => data
    case Object(fields) =>
      Mapping(seq(|fields|, i requires 0 <= i < |fields| => (fields[i].0, Encode(fields[i].1))))
    case Dictionary(entries) =>
      Array(seq(|entries|, i requires 0 <= i < |entries| => Array([Encode(entries[i].0), Encode(entries[i].1)])))
    case Listed(items) => Array(seq(|items|, i requires 0 <= i < |items| => Encode(items[i])))
    case Tupled(items) => Array(seq(|items|, i requires 0 <= i < |items| => Encode(items[i])))
  }

  // `_decode`; None where it raises.

  /** The value stored under `name`, if any. */
  function Lookup(fields: seq<(string, Data)>, name: string): Option<Data> {
    if fields == [] then None
    else if fields[|fields| - 1].0 == name then Some(fields[|fields| - 1].1)
    else Lookup(fields[..|fields| - 1], name)
  }

  /** `d[key] = item`: an entry keeps the place of its key. */
  function Put(entries: seq<(Value, Value)>, key: Value, item: Value): seq<(Value, Value)> {
    if entries == [] then [(key, item)]
    else if entries[0].0 == key then [(key, item)] + entries[1..]
    else [entries[0]] + Put(entries[1..], key, item)
  }

  function Decode(kind: Kind, data: Data): Option<Value>
    decreases kind, 2, 0
  {
    match kind
    case Optional(inner) => if data.Null? then Some(Nothing) else Decode(inner, data)
    case Record(fields) =>
      if !data.Mapping? then None
      else DecodeFields(kind, |fields|, data.fields).Map(fields => Object(fields))
    case Enum(members) => if data in members then Some(Member(data)) else None
    case DictOf(key, item) =>
      if !data.Array? then None
      else DecodeEntries(kind, data.items).Map(entries => Dictionary(entries))
    case ListOf(each) => if !data.Array? then None else DecodeEach(kind, data.items).Map(items => Listed(items))
    case TupleOf(each) => if !data.Array? then None else DecodeEach(kind, data.items).Map(items => Tupled(items))
    case Tuple(kinds) =>
      if !data.Array? then None
      else
        var n := if |data.items| < |kinds| then |data.items| else |kinds|;
        DecodeTuple(kind, n, data.items).Map(items => Tupled(items))
    case Scalars => if data.Plain? then Some(Atom(data.scalar)) else None
  }

  /** The first `n` fields; one not stored has its default. */
  function DecodeFields(kind: Kind, n: nat, stored: seq<(string, Data)>): Option<seq<(string, Value)>>
    requires kind.Record? && n <= |kind.fields|
    decreases kind, 1, n
  {
    if n == 0 then Some([])
    else
      var field := kind.fields[n - 1];
      var value := match Lookup(stored, field.name)
                   case None => field.default
                   case Some(data) => Decode(field.kind, data);
      match (DecodeFields(kind, n - 1, stored), value)
      case (Some(front), Some(last)) => Some(front + [(field.name, last)])
      case _ => None
  }

  function DecodeEntries(kind: Kind, datas: seq<Data>): Option<seq<(Value, Value)>>
    requires kind.DictOf?
    decreases kind, 1, |datas|
  {
    if datas == [] then Some([])
    else
      var front, last := DecodeEntries(kind, datas[..|datas| - 1]), datas[|datas| - 1];
      if !last.Array? || |last.items| != 2 then None
      else
        match (front, Decode(kind.key, last.items[0]), Decode(kind.item, last.items[1]))
        case (Some(entries), Some(key), Some(item)) => Some(Put(entries, key, item))
        case _ => None
  }

  function DecodeEach(kind: Kind, datas: seq<Data>): Option<seq<Value>>
    requires kind.ListOf? || kind.TupleOf?
    decreases kind, 1, |datas|
  {
    if datas == [] then Some([])
    else
      match (DecodeEach(kind, datas[..|datas| - 1]), Decode(kind.each, datas[|datas| - 1]))
      case (Some(front), Some(last)) => Some(front + [last])
      case _ => None
  }

  function DecodeTuple(kind: Kind, n: nat, datas: seq<Data>): Option<seq<Value>>
    requires kind.Tuple? && n <= |kind.kinds| && n <= |datas|
    decreases kind, 1, n
  {
    if n == 0 then Some([])
    else
      match (DecodeTuple(kind, n - 1, datas), Decode(kind.kinds[n - 1], datas[n - 1]))
      case (Some(front), Some(last)) => Some(front + [last])
      case _ => None
  }

  // The values of a kind.

  /** No member of an enum is saved as a null. */
  predicate NeverNull(kind: Kind) {
    match kind
    case Optional(inner) => NeverNull(inner)
    case Enum(members) => Null !in members
    case _ => true
  }

  /** A type the state may have: an enum that is optional has no null member,
      and the fields of a record have names of their own. */
  predicate Proper(kind: Kind) {
    match kind
    case Scalars => true
    case Optional(inner) => Proper(inner) && NeverNull(inner)
    case Record(fields) =>
      && (forall i, j | 0 <= i < j < |fields| :: fields[i].name != fields[j].name)
      && forall i | 0 <= i < |fields| :: Proper(fields[i].kind)
    case Enum(members) => true
    case DictOf(key, item) => Proper(key) && Proper(item)
    case ListOf(each) => Proper(each)
    case Tuple(kinds) => forall i | 0 <= i < |kinds| :: Proper(kinds[i])
    case TupleOf(each) => Proper(each)
  }

  predicate Of(kind: Kind, v: Value)
    decreases kind
  {
    match kind
    case Scalars => v.Atom?
    case Optional(inner) => v.Nothing? || Of(inner, v)
    case Record(fields) =>
      && v.Object? && |v.fields| == |fields|
      && forall i | 0 <= i < |fields| :: v.fields[i].0 == fields[i].name && Of(fields[i].kind, v.fields[i].1)
    case Enum(members) => v.Member? && v.data in members
    case DictOf(key, item) =>
      && v.Dictionary?
      && (forall i, j | 0 <= i < j < |v.entries| :: v.entries[i].0 != v.entries[j].0)
      && forall i | 0 <= i < |v.entries| :: Of(key, v.entries[i].0) && Of(item, v.entries[i].1)
    case ListOf(each) => v.Listed? && forall i | 0 <= i < |v.items| :: Of(each, v.items[i])
    case Tuple(kinds) => v.Tupled? && |v.items| == |kinds| && forall i | 0 <= i < |kinds| :: Of(kinds[i], v.items[i])
    case TupleOf(each) => v.Tupled? && forall i | 0 <= i < |v.items| :: Of(each, v.items[i])
  }

  lemma {:induction false} NotNull(kind: Kind, v: Value)
    requires Of(kind, v) && NeverNull(kind) && !v.Nothing?
    ensures Encode(v) != Null
  {
    if kind.Optional? {
      NotNull(kind.inner, v);
    }
  }

  predicate ReadsBack(kind: Kind, v: Value) {
    Decode(kind, Encode(v)) == Some(v)
  }

  // What is made of parts that are read back.

  lemma {:induction false} LookupIs(stored: seq<(string, Data)>, k: nat, n: nat)
    requires k < n <= |stored|
    requires forall i, j | 0 <= i < j < |stored| :: stored[i].0 != stored[j].0
    ensures Lookup(stored[..n], stored[k].0) == Some(stored[k].1)
    decreases n
  {
    assert stored[..n][..n - 1] == stored[..n - 1];
    if k < n - 1 {
      LookupIs(stored, k, n - 1);
    }
  }

  lemma {:induction false} FieldsReadBack(kind: Kind, n: nat, stored: seq<(string, Data)>, fields: seq<(string, Value)>)
    requires kind.Record? && n <= |kind.fields| == |fields|
    requires forall k | 0 <= k < n ::
               && fields[k].0 == kind.fields[k].name && Lookup(stored, fields[k].0) == Some(Encode(fields[k].1))
               && ReadsBack(kind.fields[k].kind, fields[k].1)
    ensures DecodeFields(kind, n, stored) == Some(fields[..n])
    decreases n
  {
    if n > 0 {
      FieldsReadBack(kind, n - 1, stored, fields);
      assert ReadsBack(kind.fields[n - 1].kind, fields[n - 1].1);
      assert fields[..n] == fields[..n - 1] + [fields[n - 1]];
    }
  }

  lemma {:induction false} PutNew(entries: seq<(Value, Value)>, key: Value, item: Value)
    requires forall i | 0 <= i < |entries| :: entries[i].0 != key
    ensures Put(entries, key, item) == entries + [(key, item)]
  {
    if entries != [] {
      PutNew(entries[1..], key, item);
    }
  }

  lemma {:induction false} EntriesReadBack(kind: Kind, n: nat, datas: seq<Data>, entries: seq<(Value, Value)>)
    requires kind.DictOf? && n <= |datas| == |entries|
    requires forall i, j | 0 <= i < j < |entries| :: entries[i].0 != entries[j].0
    requires forall k | 0 <= k < n ::
               && datas[k] == Array([Encode(entries[k].0), Encode(entries[k].1)])
               && ReadsBack(kind.key, entries[k].0) && ReadsBack(kind.item, entries[k].1)
    ensures DecodeEntries(kind, datas[..n]) == Some(entries[..n])
    decreases n
  {
    if n > 0 {
      var (key, item) := entries[n - 1];
      EntriesReadBack(kind, n - 1, datas, entries);
      assert ReadsBack(kind.key, key) && ReadsBack(kind.item, item);
      assert datas[..n][..n - 1] == datas[..n - 1];
      PutNew(entries[..n - 1], key, item);
      assert entries[..n] == entries[..n - 1] + [(key, item)];
    }
  }

  lemma {:induction false} EachReadBack(kind: Kind, n: nat, datas: seq<Data>, items: seq<Value>)
    requires (kind.ListOf? || kind.TupleOf?) && n <= |datas| == |items|
    requires forall k | 0 <= k < n :: datas[k] == Encode(items[k]) && ReadsBack(kind.each, items[k])
    ensures DecodeEach(kind, datas[..n]) == Some(items[..n])
    decreases n
  {
    if n > 0 {
      EachReadBack(kind, n - 1, datas, items);
      assert ReadsBack(kind.each, items[n - 1]);
      assert datas[..n][..n - 1] == datas[..n - 1];
      assert items[..n] == items[..n - 1] + [items[n - 1]];
    }
  }

  lemma {:induction false} TupleReadBack(kind: Kind, n: nat, datas: seq<Data>, items: seq<Value>)
    requires kind.Tuple? && n <= |kind.kinds| == |datas| == |items|
    requires forall k | 0 <= k < n :: datas[k] == Encode(items[k]) && ReadsBack(kind.kinds[k], items[k])
    ensures DecodeTuple(kind, n, datas) == Some(items[..n])
    decreases n
  {
    if n > 0 {
      TupleReadBack(kind, n - 1, datas, items);
      assert ReadsBack(kind.kinds[n - 1], items[n - 1]);
      assert items[..n] == items[..n - 1] + [items[n - 1]];
    }
  }

  // What is saved and read back.

  /** Whatever is saved of a value is read back as the value, by its kind. */
  lemma {:induction false} RoundTrip(kind: Kind, v: Value)
    requires Proper(kind) && Of(kind, v)
    ensures Decode(kind, Encode(v)) == Some(v)
    decreases kind
  {
    match kind
    case Scalars =>
    case Optional(inner) =>
      if !v.Nothing? {
        NotNull(inner, v);
        RoundTrip(inner, v);
      }
    case Record(fields) => RecordRoundTrip(kind, v);
    case Enum(members) =>
    case DictOf(key, item) => DictRoundTrip(kind, v);
    case ListOf(each) => EachRoundTrip(kind, v);
    case TupleOf(each) => EachRoundTrip(kind, v);
    case Tuple(kinds) => TupleRoundTrip(kind, v);
  }

  lemma {:induction false} RecordRoundTrip(kind: Kind, v: Value)
    requires Proper(kind) && Of(kind, v) && kind.Record?
    ensures ReadsBack(kind, v)
    decreases kind, 0
  {
    var n, stored := |kind.fields|, Encode(v).fields;
    forall k | 0 <= k < n
      ensures v.fields[k].0 == kind.fields[k].name && ReadsBack(kind.fields[k].kind, v.fields[k].1)
      ensures Lookup(stored, v.fields[k].0) == Some(Encode(v.fields[k].1))
    {
      RoundTrip(kind.fields[k].kind, v.fields[k].1);
      StoredUnder(kind, v, k);
    }
    FieldsReadBack(kind, n, stored, v.fields);
    assert v.fields[..n] == v.fields;
  }

  lemma StoredUnder(kind: Kind, v: Value, k: nat)
    requires Proper(kind) && Of(kind, v) && kind.Record? && k < |kind.fields|
    ensures Lookup(Encode(v).fields, kind.fields[k].name) == Some(Encode(v.fields[k].1))
  {
    var stored := Encode(v).fields;
    assert forall i | 0 <= i < |stored| :: stored[i].0 == kind.fields[i].name;
    LookupIs(stored, k, |stored|);
    assert stored[..|stored|] == stored;
  }

  lemma {:induction false} DictRoundTrip(kind: Kind, v: Value)
    requires Proper(kind) && Of(kind, v) && kind.DictOf?
    ensures ReadsBack(kind, v)
    decreases kind, 0
  {
    var n, datas := |v.entries|, Encode(v).items;
    forall k | 0 <= k < n
      ensures ReadsBack(kind.key, v.entries[k].0) && ReadsBack(kind.item, v.entries[k].1)
    {
      RoundTrip(kind.key, v.entries[k].0);
      RoundTrip(kind.item, v.entries[k].1);
    }
    EntriesReadBack(kind, n, datas, v.entries);
    assert v.entries[..n] == v.entries && datas[..n] == datas;
  }

  lemma {:induction false} EachRoundTrip(kind: Kind, v: Value)
    requires Proper(kind) && Of(kind, v) && (kind.ListOf? || kind.TupleOf?)
    ensures ReadsBack(kind, v)
    decreases kind, 0
  {
    var n, datas := |v.items|, Encode(v).items;
    forall k | 0 <= k < n
      ensures ReadsBack(kind.each, v.items[k])
    {
      RoundTrip(kind.each, v.items[k]);
    }
    EachReadBack(kind, n, datas, v.items);
    assert v.items[..n] == v.items && datas[..n] == datas;
  }

  lemma {:induction false} TupleRoundTrip(kind: Kind, v: Value)
    requires Proper(kind) && Of(kind, v) && kind.Tuple?
    ensures ReadsBack(kind, v)
    decreases kind, 0
  {
    var n := |v.items|;
    forall k | 0 <= k < n
      ensures ReadsBack(kind.kinds[k], v.items[k])
    {
      RoundTrip(kind.kinds[k], v.items[k]);
    }
    TupleReadBack(kind, n, Encode(v).items, v.items);
    assert v.items[..n] == v.items;
  }

  /** An optional enum is read back exactly if none of its members is a null:
      a null member is read back as nothing. */
  lemma OptionalEnum(members: seq<Data>)
    ensures Null !in members <==>
            forall v | Of(Optional(Enum(members)), v) :: ReadsBack(Optional(Enum(members)), v)
  {
    var kind := Optional(Enum(members));
    if Null in members {
      assert Of(Enum(members), Member(Null)) && Of(kind, Member(Null));
      assert Decode(kind, Null) == Some(Nothing);
      assert !ReadsBack(kind, Member(Null));
    } else {
      forall v | Of(kind, v)
        ensures ReadsBack(kind, v)
      {
        RoundTrip(kind, v);
      }
    }
  }

  // What is read of anything stored, saved by this version or an earlier one.

  predicate IsStored(stored: seq<(string, Data)>, name: string) {
    exists i :: 0 <= i < |stored| && stored[i].0 == name
  }

  /** The last stored under the name. */
  predicate LastStored(stored: seq<(string, Data)>, name: string, data: Data) {
    exists i | 0 <= i < |stored| ::
      stored[i] == (name, data) && forall j | i < j < |stored| :: stored[j].0 != name
  }

  lemma StoredNext(front: seq<(string, Data)>, last: (string, Data), name: string)
    ensures IsStored(front + [last], name) <==> IsStored(front, name) || last.0 == name
  {
    var stored := front + [last];
    assert stored[|front|] == last && forall i | 0 <= i < |front| :: stored[i] == front[i];
  }

  lemma LastStoredNext(front: seq<(string, Data)>, last: (string, Data), name: string, data: Data)
    ensures LastStored(front + [last], name, data) <==>
            if last.0 == name then data == last.1 else LastStored(front, name, data)
  {
    var stored := front + [last];
    assert stored[|front|] == last && forall i | 0 <= i < |front| :: stored[i] == front[i];
    if last.0 != name && LastStored(front, name, data) {
      var i :| 0 <= i < |front| && front[i] == (name, data) && forall j | i < j < |front| :: front[j].0 != name;
      assert stored[i] == (name, data);
    }
  }

  lemma {:induction false} LookupFinds(stored: seq<(string, Data)>, name: string)
    ensures Lookup(stored, name).None? <==> !IsStored(stored, name)
    ensures forall data :: Lookup(stored, name) == Some(data) <==> LastStored(stored, name, data)
  {
    if stored != [] {
      var front, last := stored[..|stored| - 1], stored[|stored| - 1];
      assert stored == front + [last];
      LookupFinds(front, name);
      StoredNext(front, last, name);
      forall data
        ensures LastStored(stored, name, data) <==>
                if last.0 == name then data == last.1 else LastStored(front, name, data)
      {
        LastStoredNext(front, last, name, data);
      }
      hide IsStored, LastStored;
    }
  }

  /** What a field is read as: by its kind if it is stored, else its default. */
  ghost predicate ReadAs(field: Field, stored: seq<(string, Data)>, value: Option<Value>) {
    if IsStored(stored, field.name)
    then forall data | LastStored(stored, field.name, data) :: value == Decode(field.kind, data)
    else value == field.default
  }

  function FieldRead(field: Field, stored: seq<(string, Data)>): Option<Value> {
    match Lookup(stored, field.name)
    case None => field.default
    case Some(data) => Decode(field.kind, data)
  }

  lemma {:induction false} FieldsRead(kind: Kind, n: nat, stored: seq<(string, Data)>)
    requires kind.Record? && n <= |kind.fields|
    ensures DecodeFields(kind, n, stored).None? <==> exists k | 0 <= k < n :: FieldRead(kind.fields[k], stored).None?
    ensures
      match DecodeFields(kind, n, stored)
      case None => true
      case Some(fields) =>
        && |fields| == n
        && forall k | 0 <= k < n ::
          fields[k].0 == kind.fields[k].name && FieldRead(kind.fields[k], stored) == Some(fields[k].1)
    decreases n
  {
    if n > 0 {
      FieldsRead(kind, n - 1, stored);
      assert DecodeFields(kind, n, stored).None? <==>
             DecodeFields(kind, n - 1, stored).None? || FieldRead(kind.fields[n - 1], stored).None?;
    }
  }

  /** Of a record, each field has what is stored under its name, read by its
      kind, or its default if nothing is; and reading fails exactly if one of
      them has neither. What is stored under any other name is ignored. */
  lemma RecordRead(kind: Kind, stored: seq<(string, Data)>)
    requires kind.Record?
    ensures forall k | 0 <= k < |kind.fields| :: ReadAs(kind.fields[k], stored, FieldRead(kind.fields[k], stored))
    ensures
      match Decode(kind, Mapping(stored))
      case None => exists k | 0 <= k < |kind.fields| :: FieldRead(kind.fields[k], stored).None?
      case Some(v) =>
        && v.Object? && |v.fields| == |kind.fields|
        && forall k | 0 <= k < |kind.fields| ::
          v.fields[k].0 == kind.fields[k].name && FieldRead(kind.fields[k], stored) == Some(v.fields[k].1)
  {
    FieldsRead(kind, |kind.fields|, stored);
    forall k | 0 <= k < |kind.fields|
      ensures ReadAs(kind.fields[k], stored, FieldRead(kind.fields[k], stored))
    {
      LookupFinds(stored, kind.fields[k].name);
    }
  }

  /** Of a tuple as many items are read as there are of both kinds and data. */
  lemma {:induction false} TupleRead(kind: Kind, n: nat, datas: seq<Data>)
    requires kind.Tuple? && n <= |kind.kinds| && n <= |datas|
    ensures
      match DecodeTuple(kind, n, datas)
      case None => exists k | 0 <= k < n :: Decode(kind.kinds[k], datas[k]).None?
      case Some(items) =>
        |items| == n && forall k | 0 <= k < n :: Decode(kind.kinds[k], datas[k]) == Some(items[k])
    decreases n
  {
    if n > 0 {
      TupleRead(kind, n - 1, datas);
    }
  }

  predicate KeysDiffer(entries: seq<(Value, Value)>) {
    forall i, j | 0 <= i < j < |entries| :: entries[i].0 != entries[j].0
  }

  lemma {:induction false} PutIs(entries: seq<(Value, Value)>, key: Value, item: Value)
    requires KeysDiffer(entries)
    ensures
      var r := Put(entries, key, item);
      && KeysDiffer(r) && (key, item) in r
      && (forall e | e in r :: e == (key, item) || (e in entries && e.0 != key))
      && (forall e | e in entries && e.0 != key :: e in r)
  {
    if entries != [] {
      var r, rest := Put(entries, key, item), Put(entries[1..], key, item);
      PutIs(entries[1..], key, item);
      assert entries == [entries[0]] + entries[1..];
      if entries[0].0 == key {
        assert r == [(key, item)] + entries[1..];
      } else {
        assert r == [entries[0]] + rest;
        forall j | 0 <= j < |rest|
          ensures rest[j].0 != entries[0].0
        {
          assert rest[j] in rest;
        }
      }
    }
  }

  predicate KeyIs(kind: Kind, data: Data, key: Value)
    requires kind.DictOf?
  {
    data.Array? && |data.items| == 2 && Decode(kind.key, data.items[0]) == Some(key)
  }

  predicate PairIs(kind: Kind, data: Data, entry: (Value, Value))
    requires kind.DictOf?
  {
    KeyIs(kind, data, entry.0) && Decode(kind.item, data.items[1]) == Some(entry.1)
  }

  /** The last pair stored for its key. */
  ghost predicate LastPair(kind: Kind, datas: seq<Data>, entry: (Value, Value))
    requires kind.DictOf?
  {
    exists n | 0 <= n < |datas| ::
      PairIs(kind, datas[n], entry) && forall m | n < m < |datas| :: !KeyIs(kind, datas[m], entry.0)
  }

  lemma LastPairNext(kind: Kind, front: seq<Data>, last: Data, entry: (Value, Value))
    requires kind.DictOf?
    ensures LastPair(kind, front + [last], entry) <==>
            PairIs(kind, last, entry) || (LastPair(kind, front, entry) && !KeyIs(kind, last, entry.0))
  {
    var datas := front + [last];
    assert datas[|front|] == last && forall n | 0 <= n < |front| :: datas[n] == front[n];
    hide PairIs, KeyIs;
  }

  /** A dictionary is read as the last pair stored for each of its keys. */
  lemma {:induction false} DictionaryRead(kind: Kind, datas: seq<Data>)
    requires kind.DictOf? && DecodeEntries(kind, datas).Some?
    ensures KeysDiffer(DecodeEntries(kind, datas).value)
    ensures forall entry :: entry in DecodeEntries(kind, datas).value <==> LastPair(kind, datas, entry)
  {
    if datas != [] {
      var front, last := datas[..|datas| - 1], datas[|datas| - 1];
      var before := DecodeEntries(kind, front).value;
      var key, item := Decode(kind.key, last.items[0]).value, Decode(kind.item, last.items[1]).value;
      DictionaryRead(kind, front);
      PutIs(before, key, item);
      assert datas == front + [last];
      forall entry: (Value, Value)
        ensures entry in Put(before, key, item) <==> LastPair(kind, datas, entry)
      {
        LastPairNext(kind, front, last, entry);
      }
    }
  }
}
