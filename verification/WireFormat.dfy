/** The QDataStream encoding that the greeter's socket carries: big-endian 32-bit numbers,
    length-prefixed UTF-16 strings and counted string lists. */
module WireFormat {

  type Byte = b: int | 0 <= b < 256
  type Unit = u: int | 0 <= u < 65536
  type U32 = n: int | 0 <= n < 0x1_0000_0000

  const NULL_LENGTH: U32 := 0xFFFF_FFFF

  /** A string is null or a sequence of UTF-16 units. */
  datatype Str = Null | Text(units: seq<Unit>)

  datatype Field = Number(n: U32) | Single(s: Str) | Many(ss: seq<Str>)

  datatype Shape = NumberShape | SingleShape | ManyShape

  /** A read gets a value, runs out of bytes, or meets corrupt data after `used` bytes. */
  datatype Read<+T> = Got(value: T, used: nat) | Short | Corrupt(used: nat)

  function NumberAt(b: seq<Byte>): U32
    requires |b| >= 4
  {
    var b0: int, b1: int, b2: int, b3: int := b[0], b[1], b[2], b[3];
    b0 * 0x100_0000 + b1 * 0x1_0000 + b2 * 0x100 + b3
  }

  function ReadNumber(b: seq<Byte>): Read<U32> {
    if |b| < 4 then Short else Got(NumberAt(b), 4)
  }

  function UnitsOf(b: seq<Byte>): seq<Unit>
    requires |b| % 2 == 0
  {
    seq(|b| / 2, i requires 0 <= i < |b| / 2 =>
      var high: int := b[2 * i]; high * 256 + b[2 * i + 1])
  }

  function ReadStr(b: seq<Byte>): Read<Str> {
    if |b| < 4 then Short
    else
      var length: int := NumberAt(b);
      if length == NULL_LENGTH then Got(Null, 4)
      else if length % 2 == 1 then Corrupt(4)
      else if |b| < 4 + length then Short
      else Got(Text(UnitsOf(b[4..4 + length])), 4 + length)
  }

  function Shift<T>(r: Read<T>, offset: nat): Read<T> {
    match r
    case Got(v, used) => Got(v, used + offset)
    case Short => Short
    case Corrupt(used) => Corrupt(used + offset)
  }

  function ReadStrs(b: seq<Byte>, count: nat): Read<seq<Str>>
    decreases count
  {
    if count == 0 then Got([], 0)
    else match ReadStr(b)
      case Short => Short
      case Corrupt(used) => Corrupt(used)
      case Got(s, used) =>
        if used > |b| then Short
        else match ReadStrs(b[used..], count - 1)
          case Got(rest, more) => Got([s] + rest, used + more)
          case Short => Short
          case Corrupt(more) => Corrupt(used + more)
  }

  function ReadMany(b: seq<Byte>): Read<seq<Str>> {
    if |b| < 4 then Short else Shift(ReadStrs(b[4..], NumberAt(b)), 4)
  }

  function ReadField(b: seq<Byte>, shape: Shape): Read<Field> {
    match shape
    case NumberShape => (match ReadNumber(b) case Got(n, used) => Got(Number(n), used) case Short => Short
                         case Corrupt(u) => Corrupt(u))
    case SingleShape => (match ReadStr(b) case Got(s, used) => Got(Single(s), used) case Short => Short
                         case Corrupt(u) => Corrupt(u))
    case ManyShape => (match ReadMany(b) case Got(ss, used) => Got(Many(ss), used) case Short => Short
                       case Corrupt(u) => Corrupt(u))
  }

  function ReadFields(b: seq<Byte>, shapes: seq<Shape>): Read<seq<Field>>
    decreases |shapes|
  {
    if shapes == [] then Got([], 0)
    else match ReadField(b, shapes[0])
      case Short => Short
      case Corrupt(used) => Corrupt(used)
      case Got(f, used) =>
        if used > |b| then Short
        else match ReadFields(b[used..], shapes[1..])
          case Got(rest, more) => Got([f] + rest, used + more)
          case Short => Short
          case Corrupt(more) => Corrupt(used + more)
  }

  // ----- reads look only at what they use -----------------------------------------

  /** Reading `r` from `b` stays within `b`, and more bytes do not change it. */
  ghost predicate Stable<T(!new)>(b: seq<Byte>, x: seq<Byte>, r: Read<T>, longer: Read<T>) {
    && (r.Got? ==> r.used <= |b|)
    && (r.Corrupt? ==> r.used <= |b|)
    && (!r.Short? ==> longer == r)
  }

  lemma {:induction false} StrStable(b: seq<Byte>, x: seq<Byte>)
    ensures Stable(b, x, ReadStr(b), ReadStr(b + x))
    ensures ReadStr(b).Got? ==> 4 <= ReadStr(b).used
  {
    if |b| >= 4 {
      assert NumberAt(b + x) == NumberAt(b);
      var length: int := NumberAt(b);
      if |b| >= 4 + length {
        assert (b + x)[4..4 + length] == b[4..4 + length];
      }
    }
  }

  lemma {:induction false} StrsStable(b: seq<Byte>, x: seq<Byte>, count: nat)
    ensures Stable(b, x, ReadStrs(b, count), ReadStrs(b + x, count))
    decreases count
  {
    if count > 0 {
      StrStable(b, x);
      match ReadStr(b)
      case Got(s, used) =>
        assert (b + x)[used..] == b[used..] + x;
        StrsStable(b[used..], x, count - 1);
      case _ =>
    }
  }

  lemma {:induction false} FieldStable(b: seq<Byte>, x: seq<Byte>, shape: Shape)
    ensures Stable(b, x, ReadField(b, shape), ReadField(b + x, shape))
  {
    StrStable(b, x);
    if |b| >= 4 {
      assert NumberAt(b + x) == NumberAt(b);
      assert (b + x)[4..] == b[4..] + x;
      StrsStable(b[4..], x, NumberAt(b));
    }
  }

  lemma {:induction false} FieldsStable(b: seq<Byte>, x: seq<Byte>, shapes: seq<Shape>)
    ensures Stable(b, x, ReadFields(b, shapes), ReadFields(b + x, shapes))
    decreases |shapes|
  {
    if shapes != [] {
      FieldStable(b, x, shapes[0]);
      match ReadField(b, shapes[0])
      case Got(f, used) =>
        assert (b + x)[used..] == b[used..] + x;
        FieldsStable(b[used..], x, shapes[1..]);
      case _ =>
    }
  }

  // ----- writing, and reading back ------------------------------------------------

  function WriteNumber(n: U32): seq<Byte> {
    var m: int := n;
    [m / 0x100_0000, m / 0x1_0000 % 256, m / 0x100 % 256, m % 256]
  }

  function WriteUnits(us: seq<Unit>): seq<Byte> {
    seq(2 * |us|, i requires 0 <= i < 2 * |us| =>
      var u: int := us[i / 2]; if i % 2 == 0 then u / 256 else u % 256)
  }

  predicate Writable(s: Str) {
    s.Text? ==> 2 * |s.units| < NULL_LENGTH
  }

  function WriteStr(s: Str): seq<Byte>
    requires Writable(s)
  {
    match s
    case Null => WriteNumber(NULL_LENGTH)
    case Text(us) => WriteNumber(2 * |us|) + WriteUnits(us)
  }

  predicate AllWritable(ss: seq<Str>) {
    forall k :: 0 <= k < |ss| ==> Writable(ss[k])
  }

  function WriteStrs(ss: seq<Str>): seq<Byte>
    requires AllWritable(ss)
  {
    if ss == [] then [] else WriteStr(ss[0]) + WriteStrs(ss[1..])
  }

  predicate FieldWritable(f: Field) {
    match f
    case Number(_) => true
    case Single(s) => Writable(s)
    case Many(ss) => AllWritable(ss) && |ss| < 0x1_0000_0000
  }

  function WriteField(f: Field): seq<Byte>
    requires FieldWritable(f)
  {
    match f
    case Number(n) => WriteNumber(n)
    case Single(s) => WriteStr(s)
    case Many(ss) => WriteNumber(|ss|) + WriteStrs(ss)
  }

  predicate FieldsWritable(fs: seq<Field>) {
    forall k :: 0 <= k < |fs| ==> FieldWritable(fs[k])
  }

  function WriteFields(fs: seq<Field>): seq<Byte>
    requires FieldsWritable(fs)
  {
    if fs == [] then [] else WriteField(fs[0]) + WriteFields(fs[1..])
  }

  function ShapeOf(f: Field): Shape {
    match f
    case Number(_) => NumberShape
    case Single(_) => SingleShape
    case Many(_) => ManyShape
  }

  predicate Fits(fs: seq<Field>, shapes: seq<Shape>) {
    |fs| == |shapes| && forall k :: 0 <= k < |fs| ==> ShapeOf(fs[k]) == shapes[k]
  }

  /** Numbers are big-endian: the first byte is the most significant. */
  lemma {:induction false} NumbersAreBigEndian(b: seq<Byte>)
    requires |b| >= 4
    ensures NumberAt(b) / 0x100_0000 == b[0] && NumberAt(b) / 0x1_0000 % 0x100 == b[1]
    ensures NumberAt(b) / 0x100 % 0x100 == b[2] && NumberAt(b) % 0x100 == b[3]
  {
    var b0: int, b1: int, b2: int, b3: int := b[0], b[1], b[2], b[3];
    var n: int := NumberAt(b);
    assert n == (b0 * 0x1_0000 + b1 * 0x100 + b2) * 0x100 + b3;
    assert n / 0x100 == b0 * 0x1_0000 + b1 * 0x100 + b2;
    assert n / 0x1_0000 == b0 * 0x100 + b1;
  }

  /** So are the units of a string, and the length counts bytes; four bytes 255 stand for null. */
  lemma {:induction false} StringsAreUtf16(high: Byte, low: Byte)
    ensures ReadStr([0, 0, 0, 2, high, low]) == Got(Text([256 * high as int + low as int]), 6)
    ensures ReadStr([255, 255, 255, 255]) == Got(Null, 4) && ReadStr([0, 0, 0, 0]) == Got(Text([]), 4)
    ensures ReadStr([0, 0, 0, 1]) == Corrupt(4)
  {
    var b := [0, 0, 0, 2, high, low];
    assert NumberAt(b) == 2 && b[4..6] == [high, low];
    assert UnitsOf([high, low]) == [256 * high as int + low as int];
    assert NumberAt([0, 0, 0, 0]) == 0 && [0, 0, 0, 0][4..4] == [];
    assert UnitsOf([]) == [];
  }

  lemma {:induction false} DivideTwice(m: int)
    requires m >= 0
    ensures m / 0x1_0000 == m / 0x100 / 0x100
  {
  }

  lemma {:induction false} NumberRoundTrip(n: U32)
    ensures NumberAt(WriteNumber(n)) == n
  {
    var m: int := n;
    var q := m / 0x100;
    DivideTwice(m);
    DivideTwice(q);
    assert m / 0x100_0000 == q / 0x1_0000;
    assert q == (q / 0x100 / 0x100 * 0x100 + q / 0x100 % 0x100) * 0x100 + q % 0x100;
    assert WriteNumber(n) == [q / 0x100 / 0x100, q / 0x100 % 0x100, q % 0x100, m % 0x100];
  }

  lemma {:induction false} UnitsRoundTrip(us: seq<Unit>)
    ensures UnitsOf(WriteUnits(us)) == us
  {
    assert |WriteUnits(us)| / 2 == |us|;
    forall i | 0 <= i < |us|
      ensures UnitsOf(WriteUnits(us))[i] == us[i]
    {
      assert WriteUnits(us)[2 * i] == us[i] / 256 && WriteUnits(us)[2 * i + 1] == us[i] % 256;
    }
  }

  lemma {:induction false} StrRoundTrip(s: Str)
    requires Writable(s)
    ensures ReadStr(WriteStr(s)) == Got(s, |WriteStr(s)|)
  {
    match s
    case Null => NumberRoundTrip(NULL_LENGTH);
    case Text(us) =>
      var b := WriteStr(s);
      NumberRoundTrip(2 * |us|);
      assert NumberAt(b) == NumberAt(WriteNumber(2 * |us|));
      assert b[4..4 + 2 * |us|] == WriteUnits(us);
      UnitsRoundTrip(us);
  }

  lemma {:induction false} StrsRoundTrip(ss: seq<Str>)
    requires AllWritable(ss)
    ensures ReadStrs(WriteStrs(ss), |ss|) == Got(ss, |WriteStrs(ss)|)
  {
    if ss != [] {
      var first, rest := WriteStr(ss[0]), WriteStrs(ss[1..]);
      StrRoundTrip(ss[0]);
      StrStable(first, rest);
      assert (first + rest)[|first|..] == rest;
      StrsRoundTrip(ss[1..]);
      assert [ss[0]] + ss[1..] == ss;
    }
  }

  lemma {:induction false} FieldRoundTrip(f: Field)
    requires FieldWritable(f)
    ensures ReadField(WriteField(f), ShapeOf(f)) == Got(f, |WriteField(f)|)
  {
    match f
    case Number(n) => NumberRoundTrip(n);
    case Single(s) => StrRoundTrip(s);
    case Many(ss) =>
      var b := WriteField(f);
      NumberRoundTrip(|ss|);
      assert NumberAt(b) == NumberAt(WriteNumber(|ss|));
      assert b[4..] == WriteStrs(ss);
      StrsRoundTrip(ss);
  }

  lemma {:induction false} FieldsRoundTrip(fs: seq<Field>, shapes: seq<Shape>)
    requires FieldsWritable(fs) && Fits(fs, shapes)
    ensures ReadFields(WriteFields(fs), shapes) == Got(fs, |WriteFields(fs)|)
  {
    if fs != [] {
      var first, rest := WriteField(fs[0]), WriteFields(fs[1..]);
      FieldRoundTrip(fs[0]);
      FieldStable(first, rest, shapes[0]);
      assert (first + rest)[|first|..] == rest;
      FieldsRoundTrip(fs[1..], shapes[1..]);
      assert [fs[0]] + fs[1..] == fs;
    }
  }
}
