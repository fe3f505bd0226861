/**
  The bytes of the `Acks` field and the map they stand for: which maps have a
  field, which fields are accepted, and that neither way loses anything.
 */
module AckCodec {
  import opened Basics
  import opened Sets

  datatype Result<+T> = Ok(value: T) | AcksError

  const VALUE_SIZE := 8
  const ROSTER_MAX := 256
  const MAX_NAMING := 32
  const IDX64_MAX := 0xFFFF_FFFF_FFFF_FFFF

  // Bits.

  function Pow2(n: nat): (p: nat)
    ensures p > 0
  {
    if n == 0 then 1 else 2 * Pow2(n - 1)
  }

  /** Whether bit `j` of `n`, counted from the top, is set in `v`. */
  predicate HasBit(v: nat, j: nat, n: nat)
    requires j < n
  {
    v / Pow2(n - 1 - j) % 2 == 1
  }

  /** The `n` bits from `low` on that are in `s`, the first at the top. */
  function Packed(s: set<nat>, low: nat, n: nat): (v: nat)
    ensures v < Pow2(n)
  {
    if n == 0 then 0 else 2 * Packed(s, low, n - 1) + if low + n - 1 in s then 1 else 0
  }

  lemma HalfBits(v: nat, j: nat, n: nat)
    requires j + 1 < n
    ensures HasBit(v, j, n) <==> HasBit(v / 2, j, n - 1)
  {
    var p := Pow2(n - 2 - j);
    DivDiv(v, p);
    assert Pow2(n - 1 - j) == 2 * p;
  }

  lemma DivDiv(v: nat, p: nat)
    requires p > 0
    ensures v / (2 * p) == v / 2 / p
  {
    var q := v / 2 / p;
    var r := v / 2 - q * p;
    assert v / 2 == q * p + r && 0 <= r < p by {
      DivIs(v / 2, p);
    }
    var w := v - q * (2 * p);
    assert w == 2 * r + v % 2;
    assert 0 <= w < 2 * p;
    QuotientIs(v, 2 * p, q, w);
  }

  lemma DivIs(a: nat, p: nat)
    requires p > 0
    ensures 0 <= a - a / p * p < p
  {}

  lemma QuotientIs(a: nat, p: nat, q: nat, r: nat)
    requires p > 0 && a == q * p + r && r < p
    ensures a / p == q
  {
    DivIs(a, p);
    var d := a / p - q;
    assert d * p == a / p * p - q * p;
    Multiple(d, p);
  }

  lemma Multiple(d: int, p: nat)
    ensures d >= 1 ==> d * p >= p
    ensures d <= -1 ==> d * p + p <= 0
  {}

  /** The `n` bits of `v` are those of `s` from `low` on. */
  predicate SameBits(v: nat, s: set<nat>, low: nat, n: nat) {
    forall j | 0 <= j < n :: HasBit(v, j, n) <==> low + j in s
  }

  lemma BitsSplit(v: nat, s: set<nat>, low: nat, n: nat)
    requires n > 0
    ensures SameBits(v, s, low, n) <==> SameBits(v / 2, s, low, n - 1) && (v % 2 == 1 <==> low + n - 1 in s)
  {
    var half, m := v / 2, n - 1;
    LastBit(v, n);
    forall j | 0 <= j < m
      ensures HasBit(v, j, n) <==> HasBit(half, j, m)
    {
      HalfBits(v, j, n);
    }
    if SameBits(v, s, low, n) {
      assert HasBit(v, m, n) <==> low + m in s;
      forall j | 0 <= j < m
        ensures HasBit(half, j, m) <==> low + j in s
      {
        assert HasBit(v, j, n) <==> low + j in s;
      }
    }
    if SameBits(half, s, low, m) && (v % 2 == 1 <==> low + n - 1 in s) {
      forall j | 0 <= j < n
        ensures HasBit(v, j, n) <==> low + j in s
      {
        if j == m {
          assert low + j == low + n - 1;
        } else {
          assert HasBit(half, j, m) <==> low + j in s;
        }
      }
    }
  }

  /** A number below 2^n is the bits it has. */
  lemma {:induction false} PackedBits(s: set<nat>, low: nat, n: nat, v: nat)
    requires v < Pow2(n)
    ensures v == Packed(s, low, n) <==> SameBits(v, s, low, n)
  {
    if n > 0 {
      PackedBits(s, low, n - 1, v / 2);
      BitsSplit(v, s, low, n);
    }
  }

  lemma LastBit(v: nat, n: nat)
    requires n > 0
    ensures HasBit(v, n - 1, n) <==> v % 2 == 1
  {}

  /** But for the last, the bits of a number are those of its half. */
  lemma AllHalfBits(v: nat, n: nat)
    requires n > 0
    ensures forall k | 0 <= k < n - 1 :: HasBit(v, k, n) <==> HasBit(v / 2, k, n - 1)
  {
    forall k | 0 <= k < n - 1
      ensures HasBit(v, k, n) <==> HasBit(v / 2, k, n - 1)
    {
      HalfBits(v, k, n);
    }
  }

  lemma HalfSum(v: nat, p: nat)
    ensures (v + 2 * p) / 2 == v / 2 + p && (v + 2 * p) % 2 == v % 2
  {}

  /** Two numbers of one half that differ in their last bit alone. */
  lemma LastBitAdded(v: nat, n: nat)
    requires n > 0 && v < Pow2(n) && !HasBit(v, n - 1, n)
    ensures v + 1 < Pow2(n) && HasBit(v + 1, n - 1, n)
    ensures forall k | 0 <= k < n - 1 :: HasBit(v + 1, k, n) <==> HasBit(v, k, n)
  {
    LastBit(v, n);
    LastBit(v + 1, n);
    AllHalfBits(v, n);
    AllHalfBits(v + 1, n);
    assert (v + 1) / 2 == v / 2;
  }

  /** Adding the value of a bit that is not set sets it and no other. */
  lemma {:induction false} AddBit(v: nat, j: nat, n: nat)
    requires j < n && v < Pow2(n) && !HasBit(v, j, n)
    ensures v + Pow2(n - 1 - j) < Pow2(n) && HasBit(v + Pow2(n - 1 - j), j, n)
    ensures forall k | 0 <= k < n && k != j :: HasBit(v + Pow2(n - 1 - j), k, n) <==> HasBit(v, k, n)
    decreases n
  {
    if j == n - 1 {
      LastBitAdded(v, n);
    } else {
      hide HasBit;
      var p, m := Pow2(n - 2 - j), n - 1;
      var w := v + 2 * p;
      HalfBits(v, j, n);
      AddBit(v / 2, j, m);
      HalfSum(v, p);
      AllHalfBits(v, n);
      AllHalfBits(w, n);
      LastBit(v, n);
      LastBit(w, n);
      assert Pow2(n - 1 - j) == 2 * p;
    }
  }

  // The names.

  lemma PowerOf8()
    ensures Pow2(8) == 256
  {}

  function ByteOf(s: set<nat>, b: nat): Byte {
    PowerOf8();
    Packed(s, b * 8, 8)
  }

  predicate Ascending(indexes: seq<nat>) {
    forall i, j | 0 <= i < j < |indexes| :: indexes[i] < indexes[j]
  }

  /** The bytes a bitmap of ascending indexes takes. */
  function Width(indexes: seq<nat>): nat {
    if indexes == [] then 0 else indexes[|indexes| - 1] / 8 + 1
  }

  function Members(indexes: seq<nat>): set<nat> {
    set i | i in indexes
  }

  function BitmapOf(indexes: seq<nat>): (bitmap: Bytes)
    ensures |bitmap| == Width(indexes)
  {
    seq(Width(indexes), b requires 0 <= b < Width(indexes) => ByteOf(Members(indexes), b))
  }

  function ListOf(indexes: seq<nat>): (list: Bytes)
    requires forall k | 0 <= k < |indexes| :: indexes[k] < ROSTER_MAX
    ensures |list| == |indexes| && forall k | 0 <= k < |indexes| :: list[k] == indexes[k]
  {
    seq(|indexes|, k requires 0 <= k < |indexes| => indexes[k])
  }

  /** What `name_members` is to return. */
  function NamingOf(indexes: seq<nat>): (naming: Bytes)
    requires forall k | 0 <= k < |indexes| :: indexes[k] < ROSTER_MAX
    ensures |naming| <= |indexes| && |naming| <= Width(indexes)
  {
    if |indexes| <= Width(indexes) then ListOf(indexes) else BitmapOf(indexes)
  }

  /** Whether the bitmap names the member `index`. */
  predicate Names(bitmap: Bytes, index: nat) {
    index / 8 < |bitmap| && HasBit(bitmap[index / 8], index % 8, 8)
  }

  /** `byte | 0x80 >> j` */
  function WithBit(byte: Byte, j: nat): (r: Byte)
    requires j < 8
    ensures HasBit(r, j, 8) && forall k | 0 <= k < 8 && k != j :: HasBit(r, k, 8) <==> HasBit(byte, k, 8)
  {
    if HasBit(byte, j, 8) then byte
    else
      PowerOf8();
      AddBit(byte, j, 8);
      byte + Pow2(7 - j)
  }

  lemma BitmapNames(indexes: seq<nat>, index: nat)
    requires Ascending(indexes)
    ensures Names(BitmapOf(indexes), index) <==> index in indexes
  {
    var bitmap, members := BitmapOf(indexes), Members(indexes);
    var b, j := index / 8, index % 8;
    if index in indexes {
      var k :| 0 <= k < |indexes| && indexes[k] == index;
      assert indexes[k] <= indexes[|indexes| - 1];
    }
    if b < |bitmap| {
      PackedBits(members, b * 8, 8, bitmap[b]);
      assert HasBit(bitmap[b], j, 8) <==> b * 8 + j in members;
    }
  }

  /** Two bitmaps of one length that name the same members are the same. */
  lemma SameNames(a: Bytes, b: Bytes)
    requires |a| == |b| && forall index: nat :: Names(a, index) <==> Names(b, index)
    ensures a == b
  {
    forall k | 0 <= k < |a|
      ensures a[k] == b[k]
    {
      var bits := set j: nat | j < 8 && HasBit(a[k], j, 8);
      PowerOf8();
      forall j | 0 <= j < 8
        ensures HasBit(a[k], j, 8) <==> HasBit(b[k], j, 8)
      {
        assert (8 * k + j) / 8 == k && (8 * k + j) % 8 == j;
        assert Names(a, 8 * k + j) <==> Names(b, 8 * k + j);
      }
      assert forall j | 0 <= j < 8 :: HasBit(a[k], j, 8) <==> 0 + j in bits;
      PackedBits(bits, 0, 8, a[k]);
      PackedBits(bits, 0, 8, b[k]);
    }
  }

  /** The indexes below `n` the bitmap names, ascending. */
  function NamedBelow(bitmap: Bytes, n: nat): (indexes: seq<nat>)
    ensures forall index: nat :: index in indexes <==> index < n && Names(bitmap, index)
    ensures Ascending(indexes) && forall k | 0 <= k < |indexes| :: indexes[k] < n
  {
    if n == 0 then []
    else
      var below := NamedBelow(bitmap, n - 1);
      assert forall index: nat :: index in below + [n - 1] <==> index in below || index == n - 1;
      if Names(bitmap, n - 1) then below + [n - 1] else below
  }

  /** `read_members` */
  function ReadMembers(naming: Bytes, count: nat): (r: Result<seq<nat>>)
    ensures r.Ok? ==> |r.value| == count && Ascending(r.value)
    ensures r.Ok? ==> forall k | 0 <= k < count :: r.value[k] < ROSTER_MAX
  {
    if |naming| == count then
      var indexes := seq(count, k requires 0 <= k < count => naming[k] as nat);
      if Ascending(indexes) then Ok(indexes) else AcksError
    else if |naming| > count || |naming| > MAX_NAMING || naming == [] || naming[|naming| - 1] == 0 then AcksError
    else
      var indexes := NamedBelow(naming, |naming| * 8);
      if |indexes| == count then Ok(indexes) else AcksError
  }

  /** `name_members`: the bits are set one by one in a buffer. */
  method NameMembers(indexes: seq<nat>) returns (naming: Bytes)
    requires Ascending(indexes) && forall k | 0 <= k < |indexes| :: indexes[k] < ROSTER_MAX
    ensures naming == NamingOf(indexes)
  {
    if indexes == [] {
      return [];
    }
    var width := indexes[|indexes| - 1] / 8 + 1;
    if |indexes| <= width {
      return ListOf(indexes);
    }
    var bitmap := new Byte[width](_ => 0);
    forall index: nat
      ensures !Names(bitmap[..], index)
    {
      NoBits(index % 8);
    }
    for n := 0 to |indexes|
      invariant forall index: nat :: Names(bitmap[..], index) <==> index in indexes[..n]
    {
      var index := indexes[n];
      assert index <= indexes[|indexes| - 1];
      ghost var before := bitmap[..];
      bitmap[index / 8] := WithBit(bitmap[index / 8], index % 8);
      assert bitmap[..] == before[index / 8 := WithBit(before[index / 8], index % 8)];
      BitSet(before, index);
      assert indexes[..n + 1] == indexes[..n] + [index];
    }
    assert indexes[..|indexes|] == indexes;
    forall index: nat
      ensures Names(bitmap[..], index) <==> Names(BitmapOf(indexes), index)
    {
      BitmapNames(indexes, index);
    }
    SameNames(bitmap[..], BitmapOf(indexes));
    naming := bitmap[..];
  }

  lemma NoBits(j: nat)
    requires j < 8
    ensures !HasBit(0, j, 8)
  {}

  lemma BitSet(bitmap: Bytes, index: nat)
    requires index / 8 < |bitmap|
    ensures
      var after := bitmap[index / 8 := WithBit(bitmap[index / 8], index % 8)];
      forall other: nat :: Names(after, other) <==> Names(bitmap, other) || other == index
  {}

  // The values.

  function Little(v: nat, n: nat): (bytes: Bytes)
    ensures |bytes| == n
  {
    if n == 0 then [] else [v % 256] + Little(v / 256, n - 1)
  }

  function FromLittle(bytes: Bytes): nat {
    if bytes == [] then 0 else bytes[0] as nat + 256 * FromLittle(bytes[1..])
  }

  function Pow256(n: nat): nat {
    if n == 0 then 1 else 256 * Pow256(n - 1)
  }

  lemma {:induction false} LittleRoundTrip(v: nat, n: nat)
    requires v < Pow256(n)
    ensures FromLittle(Little(v, n)) == v
  {
    if n > 0 {
      LittleRoundTrip(v / 256, n - 1);
    }
  }

  lemma {:induction false} FromLittleRoundTrip(bytes: Bytes)
    ensures FromLittle(bytes) < Pow256(|bytes|) && Little(FromLittle(bytes), |bytes|) == bytes
  {
    if bytes != [] {
      var n, rest := |bytes| - 1, FromLittle(bytes[1..]);
      FromLittleRoundTrip(bytes[1..]);
      LowByte(bytes[0], rest);
      assert rest + 1 <= Pow256(n);
      assert Little(FromLittle(bytes), n + 1) == [bytes[0]] + bytes[1..];
    }
  }

  lemma LowByte(low: Byte, rest: nat)
    ensures (low as nat + 256 * rest) % 256 == low as nat && (low as nat + 256 * rest) / 256 == rest
  {}

  lemma ValueRange()
    ensures Pow256(VALUE_SIZE) == IDX64_MAX + 1
  {}

  function ValuesOf(values: seq<nat>): (bytes: Bytes)
    ensures |bytes| == VALUE_SIZE * |values|
  {
    if values == [] then [] else Little(values[0], VALUE_SIZE) + ValuesOf(values[1..])
  }

  function ReadValues(bytes: Bytes, count: nat): (values: seq<nat>)
    requires |bytes| == VALUE_SIZE * count
    ensures |values| == count
  {
    if count == 0 then [] else [FromLittle(bytes[..VALUE_SIZE])] + ReadValues(bytes[VALUE_SIZE..], count - 1)
  }

  lemma {:induction false} ValuesRoundTrip(values: seq<nat>)
    requires forall k | 0 <= k < |values| :: values[k] <= IDX64_MAX
    ensures ReadValues(ValuesOf(values), |values|) == values
  {
    if values != [] {
      ValueRange();
      LittleRoundTrip(values[0], VALUE_SIZE);
      ValuesRoundTrip(values[1..]);
      var bytes := ValuesOf(values);
      assert bytes[..VALUE_SIZE] == Little(values[0], VALUE_SIZE) && bytes[VALUE_SIZE..] == ValuesOf(values[1..]);
    }
  }

  lemma {:induction false} ReadValuesRoundTrip(bytes: Bytes, count: nat)
    requires |bytes| == VALUE_SIZE * count
    ensures ValuesOf(ReadValues(bytes, count)) == bytes
    ensures forall k | 0 <= k < count :: ReadValues(bytes, count)[k] <= IDX64_MAX
    decreases count
  {
    if count > 0 {
      ValueRange();
      FromLittleRoundTrip(bytes[..VALUE_SIZE]);
      ReadValuesRoundTrip(bytes[VALUE_SIZE..], count - 1);
      assert bytes == bytes[..VALUE_SIZE] + bytes[VALUE_SIZE..];
    }
  }

  // The field.

  function Zipped(indexes: seq<nat>, values: seq<nat>): map<nat, nat>
    requires |indexes| == |values|
  {
    if indexes == [] then map[]
    else
      var n := |indexes| - 1;
      Zipped(indexes[..n], values[..n])[indexes[n] := values[n]]
  }

  lemma {:induction false} ZippedKeys(indexes: seq<nat>, values: seq<nat>)
    requires |indexes| == |values|
    ensures forall i :: i in Zipped(indexes, values) <==> i in indexes
  {
    if indexes != [] {
      var n := |indexes| - 1;
      ZippedKeys(indexes[..n], values[..n]);
      assert indexes == indexes[..n] + [indexes[n]];
    }
  }

  lemma {:induction false} ZippedAt(indexes: seq<nat>, values: seq<nat>, k: nat)
    requires k < |indexes| == |values| && Ascending(indexes)
    ensures indexes[k] in Zipped(indexes, values) && Zipped(indexes, values)[indexes[k]] == values[k]
    decreases |indexes|
  {
    var n := |indexes| - 1;
    if k < n {
      ZippedAt(indexes[..n], values[..n], k);
    }
  }

  predicate InRange(acks: map<int, int>) {
    forall i | i in acks :: 0 <= i < ROSTER_MAX && 0 <= acks[i] <= IDX64_MAX
  }

  lemma {:induction false} FewIndexes(indexes: seq<nat>, bound: nat)
    requires Ascending(indexes) && forall k | 0 <= k < |indexes| :: indexes[k] < bound
    ensures |indexes| <= bound
    decreases |indexes|
  {
    if indexes != [] {
      FewIndexes(indexes[..|indexes| - 1], indexes[|indexes| - 1]);
    }
  }

  /** The roster indexes acknowledged, ascending. */
  function IndexesOf(acks: map<int, int>): (indexes: seq<nat>)
    requires InRange(acks)
    ensures Ascending(indexes) && |indexes| <= ROSTER_MAX
    ensures forall k | 0 <= k < |indexes| :: indexes[k] in acks && indexes[k] < ROSTER_MAX
    ensures forall i: nat :: i in indexes <==> i in acks
  {
    var indexes := Upward(set i: nat | i in acks);
    assert forall k | 0 <= k < |indexes| :: indexes[k] in indexes;
    FewIndexes(indexes, ROSTER_MAX);
    indexes
  }

  function ValuesAt(acks: map<int, int>, indexes: seq<nat>): (values: seq<nat>)
    requires InRange(acks) && forall k | 0 <= k < |indexes| :: indexes[k] in acks
    ensures |values| == |indexes| && forall k | 0 <= k < |values| :: values[k] == acks[indexes[k]] <= IDX64_MAX
  {
    seq(|indexes|, k requires 0 <= k < |indexes| => acks[indexes[k]])
  }

  /** The field of these indexes and values: the count less one, who, and what. */
  function Join(indexes: seq<nat>, values: seq<nat>): Bytes
    requires 0 < |indexes| == |values| <= ROSTER_MAX
    requires forall k | 0 <= k < |indexes| :: indexes[k] < ROSTER_MAX
  {
    [(|indexes| - 1) as Byte] + NamingOf(indexes) + ValuesOf(values)
  }

  function FieldOf(acks: map<int, int>): Bytes
    requires InRange(acks)
  {
    var indexes := IndexesOf(acks);
    if indexes == [] then [] else Join(indexes, ValuesAt(acks, indexes))
  }

  /** `encode` */
  method Encode(acks: map<int, int>) returns (r: Result<Bytes>)
    ensures r == if InRange(acks) then Ok(FieldOf(acks)) else AcksError
  {
    if exists i | i in acks :: !(0 <= i < ROSTER_MAX) {
      return AcksError;
    }
    if exists i | i in acks :: !(0 <= acks[i] <= IDX64_MAX) {
      return AcksError;
    }
    var field := Encoded(acks);
    return Ok(field);
  }

  /** The rest of `encode`, for a map in range. */
  method Encoded(acks: map<int, int>) returns (field: Bytes)
    requires InRange(acks)
    ensures field == FieldOf(acks)
  {
    var indexes := IndexesOf(acks);
    if indexes == [] {
      return [];
    }
    var naming := NameMembers(indexes);
    field := [(|indexes| - 1) as Byte] + naming + ValuesOf(ValuesAt(acks, indexes));
  }

  /** `decode` */
  function Decode(field: Bytes): Result<map<nat, nat>> {
    if field == [] then Ok(map[])
    else
      var count := field[0] as nat + 1;
      var width := |field| - 1 - count * VALUE_SIZE;
      if width < 0 then AcksError
      else
        match ReadMembers(field[1..1 + width], count)
        case AcksError => AcksError
        case Ok(indexes) => Ok(Zipped(indexes, ReadValues(field[1 + width..], count)))
  }

  // The field and what it says.

  lemma ZippedFrom(acks: map<nat, nat>, indexes: seq<nat>, values: seq<nat>)
    requires |indexes| == |values| && Ascending(indexes)
    requires forall i :: i in acks <==> i in indexes
    requires forall k | 0 <= k < |indexes| :: acks[indexes[k]] == values[k]
    ensures Zipped(indexes, values) == acks
  {
    ZippedKeys(indexes, values);
    forall i | i in acks
      ensures Zipped(indexes, values)[i] == acks[i]
    {
      var k :| 0 <= k < |indexes| && indexes[k] == i;
      ZippedAt(indexes, values, k);
    }
  }

  lemma NamedAllAscend(bitmap: Bytes, indexes: seq<nat>)
    requires Ascending(indexes) && forall index: nat :: index in indexes <==> Names(bitmap, index)
    ensures NamedBelow(bitmap, |bitmap| * 8) == indexes
  {
    var named := NamedBelow(bitmap, |bitmap| * 8);
    UpwardIs(Members(indexes), indexes);
    UpwardIs(Members(indexes), named);
  }

  /** The last byte of a bitmap is not zero exactly if its last member is in
      that byte. */
  lemma LastByte(bitmap: Bytes, indexes: seq<nat>)
    requires bitmap != [] && Ascending(indexes) && forall index: nat :: index in indexes <==> Names(bitmap, index)
    ensures bitmap[|bitmap| - 1] != 0 <==> Width(indexes) == |bitmap|
  {
    var b := |bitmap| - 1;
    PowerOf8();
    PackedBits({}, 0, 8, bitmap[b]);
    PackedNone(8);
    if bitmap[b] != 0 {
      var j :| 0 <= j < 8 && HasBit(bitmap[b], j, 8);
      assert (b * 8 + j) / 8 == b && (b * 8 + j) % 8 == j;
      assert Names(bitmap, b * 8 + j);
      var k :| 0 <= k < |indexes| && indexes[k] == b * 8 + j;
      assert indexes[k] <= indexes[|indexes| - 1];
      assert Names(bitmap, indexes[|indexes| - 1]);
    } else if indexes != [] {
      var last := indexes[|indexes| - 1];
      assert Names(bitmap, last);
      NoBits(last % 8);
    }
  }

  lemma {:induction false} PackedNone(n: nat)
    ensures Packed({}, 0, n) == 0
  {
    if n > 0 {
      PackedNone(n - 1);
    }
  }

  lemma ListRoundTrip(indexes: seq<nat>)
    requires Ascending(indexes) && forall k | 0 <= k < |indexes| :: indexes[k] < ROSTER_MAX
    ensures ReadMembers(ListOf(indexes), |indexes|) == Ok(indexes)
  {
    var list := ListOf(indexes);
    assert seq(|indexes|, k requires 0 <= k < |indexes| => list[k] as nat) == indexes;
  }

  lemma BitmapRoundTrip(indexes: seq<nat>)
    requires indexes != [] && Ascending(indexes) && forall k | 0 <= k < |indexes| :: indexes[k] < ROSTER_MAX
    requires Width(indexes) < |indexes|
    ensures ReadMembers(BitmapOf(indexes), |indexes|) == Ok(indexes)
  {
    var bitmap := BitmapOf(indexes);
    forall index: nat
      ensures index in indexes <==> Names(bitmap, index)
    {
      BitmapNames(indexes, index);
    }
    LastByte(bitmap, indexes);
    NamedAllAscend(bitmap, indexes);
  }

  /** The names read back are the names written. */
  lemma NamingRoundTrip(indexes: seq<nat>)
    requires indexes != [] && Ascending(indexes) && forall k | 0 <= k < |indexes| :: indexes[k] < ROSTER_MAX
    ensures ReadMembers(NamingOf(indexes), |indexes|) == Ok(indexes)
  {
    if |indexes| <= Width(indexes) {
      ListRoundTrip(indexes);
    } else {
      BitmapRoundTrip(indexes);
    }
  }

  lemma JoinDecodes(indexes: seq<nat>, values: seq<nat>)
    requires 0 < |indexes| == |values| <= ROSTER_MAX && Ascending(indexes)
    requires forall k | 0 <= k < |indexes| :: indexes[k] < ROSTER_MAX && values[k] <= IDX64_MAX
    ensures Decode(Join(indexes, values)) == Ok(Zipped(indexes, values))
  {
    var field, naming, bytes := Join(indexes, values), NamingOf(indexes), ValuesOf(values);
    NamingRoundTrip(indexes);
    ValuesRoundTrip(values);
    assert field[1..1 + |naming|] == naming && field[1 + |naming|..] == bytes;
  }

  /** Every map in range is read back from its field. */
  lemma FieldRoundTrip(acks: map<nat, nat>)
    requires InRange(acks)
    ensures Decode(FieldOf(acks)) == Ok(acks)
  {
    var indexes := IndexesOf(acks);
    assert forall i: nat :: i in acks <==> i in indexes;
    if indexes == [] {
      assert acks == map[];
    } else {
      JoinDecodes(indexes, ValuesAt(acks, indexes));
      ZippedFrom(acks, indexes, ValuesAt(acks, indexes));
    }
  }

  /** A field that lists members where a bitmap is shorter. */
  predicate ListsTooLong(field: Bytes) {
    field != [] &&
    var count := field[0] as nat + 1;
    |field| == 1 + count + count * VALUE_SIZE && field[count] as nat / 8 + 1 < count
  }

  /** Names that are accepted are those written, unless they are a list where a
      bitmap is shorter. */
  lemma NamingAccepted(naming: Bytes, count: nat)
    requires count > 0 && ReadMembers(naming, count).Ok?
    ensures
      var indexes := ReadMembers(naming, count).value;
      && |NamingOf(indexes)| <= |naming|
      && (NamingOf(indexes) == naming <==> !(|naming| == count && naming[count - 1] as nat / 8 + 1 < count))
  {
    var indexes := ReadMembers(naming, count).value;
    if |naming| == count {
      if count <= Width(indexes) {
        assert NamingOf(indexes) == naming;
      }
    } else {
      assert forall index: nat :: Names(naming, index) ==> index < |naming| * 8;
      LastByte(naming, indexes);
      forall index: nat
        ensures Names(BitmapOf(indexes), index) <==> Names(naming, index)
      {
        BitmapNames(indexes, index);
      }
      SameNames(BitmapOf(indexes), naming);
    }
  }

  /** What is accepted is a map in range, whose own field is no longer, and is
      the same unless a list was used where a bitmap is shorter. So `encode`
      gives the shortest field accepted. */
  lemma AcceptedFields(field: Bytes)
    requires Decode(field).Ok?
    ensures
      var acks := Decode(field).value;
      && InRange(acks) && |FieldOf(acks)| <= |field|
      && (FieldOf(acks) == field <==> !ListsTooLong(field))
  {
    if field != [] {
      var count := field[0] as nat + 1;
      var width := |field| - 1 - count * VALUE_SIZE;
      var naming, bytes := field[1..1 + width], field[1 + width..];
      DecodeParts(field, count, width);
      Parts(field, 1 + width);
      AcceptedParts(field, count, naming, bytes);
    }
  }

  lemma DecodeParts(field: Bytes, count: nat, width: int)
    requires field != [] && count == field[0] as nat + 1 && width == |field| - 1 - count * VALUE_SIZE
    requires Decode(field).Ok?
    ensures width >= 0 && ReadMembers(field[1..1 + width], count).Ok?
    ensures Decode(field).value ==
            Zipped(ReadMembers(field[1..1 + width], count).value, ReadValues(field[1 + width..], count))
  {}

  lemma Parts(field: Bytes, cut: nat)
    requires 1 <= cut <= |field|
    ensures field == [field[0]] + field[1..cut] + field[cut..]
  {}

  lemma AcceptedParts(field: Bytes, count: nat, naming: Bytes, bytes: Bytes)
    requires 0 < count <= ROSTER_MAX && |bytes| == count * VALUE_SIZE
    requires field == [(count - 1) as Byte] + naming + bytes && ReadMembers(naming, count).Ok?
    ensures
      var acks := Zipped(ReadMembers(naming, count).value, ReadValues(bytes, count));
      && InRange(acks) && |FieldOf(acks)| <= |field|
      && (FieldOf(acks) == field <==> !ListsTooLong(field))
  {
    hide FieldOf, NamingOf, ValuesOf, Zipped, InRange, ReadMembers, ReadValues;
    var indexes, values := ReadMembers(naming, count).value, ReadValues(bytes, count);
    ReadValuesRoundTrip(bytes, count);
    NamingAccepted(naming, count);
    FieldOfZipped(indexes, values);
    SameParts((count - 1) as Byte, NamingOf(indexes), naming, bytes);
    if |naming| == count {
      assert field[count] == naming[count - 1];
    }
  }

  lemma SameParts(head: Byte, a: Bytes, b: Bytes, tail: Bytes)
    ensures [head] + a + tail == [head] + b + tail <==> a == b
  {
    if [head] + a + tail == [head] + b + tail {
      var whole := [head] + a + tail;
      assert |a| == |b|;
      assert whole[1..1 + |a|] == a;
      assert ([head] + b + tail)[1..1 + |a|] == b;
    }
  }

  lemma IndexesOfZipped(indexes: seq<nat>, values: seq<nat>)
    requires |indexes| == |values| && Ascending(indexes) && InRange(Zipped(indexes, values))
    ensures IndexesOf(Zipped(indexes, values)) == indexes
  {
    var acks := Zipped(indexes, values);
    ZippedKeys(indexes, values);
    UpwardIs((set i: nat | i in acks), indexes);
  }

  lemma ValuesAtZipped(indexes: seq<nat>, values: seq<nat>, acks: map<nat, nat>)
    requires |indexes| == |values| && Ascending(indexes) && acks == Zipped(indexes, values) && InRange(acks)
    requires forall k | 0 <= k < |indexes| :: indexes[k] in acks
    ensures ValuesAt(acks, indexes) == values
  {
    forall k | 0 <= k < |indexes|
      ensures acks[indexes[k]] == values[k]
    {
      ZippedAt(indexes, values, k);
    }
  }

  /** The field of the map that pairs indexes with values. */
  lemma FieldOfZipped(indexes: seq<nat>, values: seq<nat>)
    requires 0 < |indexes| == |values| <= ROSTER_MAX && Ascending(indexes)
    requires forall k | 0 <= k < |indexes| :: indexes[k] < ROSTER_MAX && values[k] <= IDX64_MAX
    ensures InRange(Zipped(indexes, values)) && FieldOf(Zipped(indexes, values)) == Join(indexes, values)
  {
    ZippedInRange(indexes, values);
    IndexesOfZipped(indexes, values);
    ValuesAtZipped(indexes, values, Zipped(indexes, values));
  }

  lemma ZippedInRange(indexes: seq<nat>, values: seq<nat>)
    requires |indexes| == |values| && Ascending(indexes)
    requires forall k | 0 <= k < |indexes| :: indexes[k] < ROSTER_MAX && values[k] <= IDX64_MAX
    ensures InRange(Zipped(indexes, values))
  {
    ZippedKeys(indexes, values);
    forall i | i in Zipped(indexes, values)
      ensures 0 <= i < ROSTER_MAX && 0 <= Zipped(indexes, values)[i] <= IDX64_MAX
    {
      var k :| 0 <= k < |indexes| && indexes[k] == i;
      ZippedAt(indexes, values, k);
    }
  }
}
