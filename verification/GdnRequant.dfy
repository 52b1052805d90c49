/** The quantiser that the checkpoint rewrite is run with: every row of a weight is coded on its own, and
    what a reader of the new file decodes is within half a scale of what the old file held, but for what
    the scale loses as it is written. */
module GdnRequant {
  import Bf16
  import Grid
  import opened CheckpointMerge
  import opened Options
  import Rows = RowReductions

  /** How a bf16 value is read from two bytes, and how a scale is written. */
  datatype Codec = Codec(decode: (byte, byte) -> real, encode: real -> (byte, byte))

  /** A code as one byte, and back. */
  function ToByte(code: int): byte {
    code % 256
  }

  function Signed(b: byte): int {
    if b < 128 then b else b - 256
  }

  lemma SignedBack(code: int)
    requires -128 <= code < 128
    ensures Signed(ToByte(code)) == code
  {
  }

  /** Value `p` of a bf16 tensor. */
  function ValueAt(k: Codec, bytes: seq<byte>, p: nat): real
    requires 2 * p + 1 < |bytes|
  {
    k.decode(bytes[2 * p], bytes[2 * p + 1])
  }

  /** A row of a weight as numbers. */
  function RowOf(k: Codec, bytes: seq<byte>, rows: nat, columns: nat, r: nat): (row: seq<real>)
    requires r < rows && |bytes| == 2 * Grid.Area(columns, rows)
    ensures |row| == columns
  {
    seq(columns, c requires 0 <= c < columns =>
      Grid.CellInside(columns, r, c, rows);
      ValueAt(k, bytes, Grid.Area(columns, r) + c))
  }

  /** The codes of the first `n` rows, row by row. */
  function Weights(k: Codec, bytes: seq<byte>, rows: nat, columns: nat, n: nat): (w: seq<byte>)
    requires n <= rows && |bytes| == 2 * Grid.Area(columns, rows)
    ensures |w| == Grid.Area(columns, n)
  {
    if n == 0 then []
    else
      var codes := Rows.RowCodes(RowOf(k, bytes, rows, columns, n - 1));
      Weights(k, bytes, rows, columns, n - 1) + seq(columns, c requires 0 <= c < columns => ToByte(codes[c]))
  }

  /** The scales of the first `n` rows. */
  function Scales(k: Codec, bytes: seq<byte>, rows: nat, columns: nat, n: nat): (s: seq<byte>)
    requires n <= rows && |bytes| == 2 * Grid.Area(columns, rows)
    ensures |s| == 2 * n
  {
    if n == 0 then []
    else
      var scale := k.encode(Rows.RowScale(RowOf(k, bytes, rows, columns, n - 1)));
      Scales(k, bytes, rows, columns, n - 1) + [scale.0, scale.1]
  }

  /** The conversion. It needs two axes, all the bytes they call for, and a column if there is a row. */
  function Requantise(k: Codec, bytes: seq<byte>, shape: seq<nat>): Option<Converted> {
    if |shape| != 2 || |bytes| != 2 * Grid.Area(shape[1], shape[0]) || (shape[0] > 0 && shape[1] == 0) then None
    else Some(Converted(Weights(k, bytes, shape[0], shape[1], shape[0]), Scales(k, bytes, shape[0], shape[1], shape[0]), shape[0], shape[1]))
  }

  /** When a conversion fails: one of the assertions, or the maximum over no columns. */
  lemma RequantiseExactly(k: Codec, bytes: seq<byte>, shape: seq<nat>)
    ensures Requantise(k, bytes, shape).Some? <==> |shape| == 2 && |bytes| == 2 * (shape[1] * shape[0]) && (shape[0] == 0 || shape[1] > 0)
  {
    if |shape| == 2 {
      Grid.AreaIsProduct(shape[1], shape[0]);
    }
  }

  lemma {:induction false} WeightAt(k: Codec, bytes: seq<byte>, rows: nat, columns: nat, n: nat, r: nat, c: nat)
    requires r < n <= rows && c < columns && |bytes| == 2 * Grid.Area(columns, rows)
    ensures Grid.Area(columns, r) + c < Grid.Area(columns, n)
    ensures Signed(Weights(k, bytes, rows, columns, n)[Grid.Area(columns, r) + c]) == Rows.RowCodes(RowOf(k, bytes, rows, columns, r))[c]
  {
    Grid.CellInside(columns, r, c, n);
    if r < n - 1 {
      WeightAt(k, bytes, rows, columns, n - 1, r, c);
    } else {
      var row := RowOf(k, bytes, rows, columns, r);
      Rows.RowCodesFaithful(row);
      assert -127 <= Rows.RowCodes(row)[c] <= 127;
      SignedBack(Rows.RowCodes(row)[c]);
    }
  }

  lemma {:induction false} ScaleAt(k: Codec, bytes: seq<byte>, rows: nat, columns: nat, n: nat, r: nat)
    requires r < n <= rows && |bytes| == 2 * Grid.Area(columns, rows)
    ensures var s := Scales(k, bytes, rows, columns, n);
      (s[2 * r], s[2 * r + 1]) == k.encode(Rows.RowScale(RowOf(k, bytes, rows, columns, r)))
  {
    if r < n - 1 {
      ScaleAt(k, bytes, rows, columns, n - 1, r);
    }
  }

  /** Codes and scales stand for a weight: the scale of a row is on disk, a code times that scale is within
      half a scale of the value, and a code times the scale as it is read back is off by no more than
      what the scale lost, 127 times over. */
  ghost predicate StandsFor(k: Codec, q: Converted, bytes: seq<byte>)
  {
    && |bytes| == 2 * Grid.Area(q.columns, q.rows) && |q.weight| == Grid.Area(q.columns, q.rows) && |q.scale| == 2 * q.rows
    && (forall r: nat {:trigger RowOf(k, bytes, q.rows, q.columns, r)} :: r < q.rows ==>
          var row := RowOf(k, bytes, q.rows, q.columns, r);
          && (q.scale[2 * r], q.scale[2 * r + 1]) == k.encode(Rows.RowScale(row))
          && forall c: nat {:trigger row[c]} :: c < q.columns && Grid.Area(q.columns, r) + c < |q.weight| ==>
               Near(Signed(q.weight[Grid.Area(q.columns, r) + c]), Rows.RowScale(row), Stored(k, Rows.RowScale(row)), row[c]))
  }

  /** A scale as a reader gets it. */
  function Stored(k: Codec, scale: real): real {
    k.decode(k.encode(scale).0, k.encode(scale).1)
  }

  predicate Near(code: int, scale: real, stored: real, value: real) {
    && -127 <= code <= 127
    && Rows.Abs(Rows.Mul(code as real, scale) - value) <= Rows.Mul(0.5, scale)
    && Rows.Abs(Rows.Mul(code as real, stored) - value) <= Rows.Mul(0.5, scale) + Rows.Mul(127.0, Rows.Abs(stored - scale))
  }

  lemma MulSmall(code: int, lost: real)
    requires -127 <= code <= 127
    ensures Rows.Abs(Rows.Mul(code as real, lost)) <= Rows.Mul(127.0, Rows.Abs(lost))
  {
    if lost < 0.0 {
      Rows.MulOrder(code as real, 127.0, -lost);
      Rows.MulOrder(-127.0, code as real, -lost);
    } else if lost > 0.0 {
      Rows.MulOrder(code as real, 127.0, lost);
      Rows.MulOrder(-127.0, code as real, lost);
    }
  }

  lemma StoredNear(code: int, scale: real, stored: real, value: real)
    requires -127 <= code <= 127 && Rows.Abs(Rows.Mul(code as real, scale) - value) <= Rows.Mul(0.5, scale)
    ensures Near(code, scale, stored, value)
  {
    MulSmall(code, stored - scale);
    assert Rows.Mul(code as real, stored - scale) == Rows.Mul(code as real, stored) - Rows.Mul(code as real, scale);
  }

  /** What is served, if the scale of the row loses at most a share of itself as it is written. */
  lemma ServedError(k: Codec, q: Converted, bytes: seq<byte>, share: real, r: nat, c: nat)
    requires StandsFor(k, q, bytes) && r < q.rows && c < q.columns
    requires var scale := Rows.RowScale(RowOf(k, bytes, q.rows, q.columns, r)); Rows.Abs(Stored(k, scale) - scale) <= Rows.Mul(share, scale)
    ensures Grid.Area(q.columns, r) + c < |q.weight|
    ensures var row := RowOf(k, bytes, q.rows, q.columns, r);
      Rows.Abs(Served(k, q, r, c) - row[c]) <= Rows.Mul(0.5 + 127.0 * share, Rows.RowScale(row))
  {
    ServedNear(k, q, bytes, r, c);
    var row := RowOf(k, bytes, q.rows, q.columns, r);
    var scale := Rows.RowScale(row);
    ShareOf(share, scale, Stored(k, scale) - scale);
  }

  /** What a reader makes of a code and the scale of its row. */
  function Served(k: Codec, q: Converted, r: nat, c: nat): real
    requires Grid.Area(q.columns, r) + c < |q.weight| && 2 * r + 1 < |q.scale|
  {
    Rows.Mul(Signed(q.weight[Grid.Area(q.columns, r) + c]) as real, k.decode(q.scale[2 * r], q.scale[2 * r + 1]))
  }

  lemma ServedNear(k: Codec, q: Converted, bytes: seq<byte>, r: nat, c: nat)
    requires StandsFor(k, q, bytes) && r < q.rows && c < q.columns
    ensures Grid.Area(q.columns, r) + c < |q.weight|
    ensures var row := RowOf(k, bytes, q.rows, q.columns, r);
      var scale := Rows.RowScale(row);
      Rows.Abs(Served(k, q, r, c) - row[c]) <= Rows.Mul(0.5, scale) + Rows.Mul(127.0, Rows.Abs(Stored(k, scale) - scale))
  {
    Grid.CellInside(q.columns, r, c, q.rows);
    var row := RowOf(k, bytes, q.rows, q.columns, r);
    assert Near(Signed(q.weight[Grid.Area(q.columns, r) + c]), Rows.RowScale(row), Stored(k, Rows.RowScale(row)), row[c]);
  }

  lemma ShareOf(share: real, scale: real, lost: real)
    requires Rows.Abs(lost) <= Rows.Mul(share, scale)
    ensures Rows.Mul(0.5, scale) + Rows.Mul(127.0, Rows.Abs(lost)) <= Rows.Mul(0.5 + 127.0 * share, scale)
  {
  }

  // ---------------------------------------------------------------------------------------------
  // The scale in bf16
  // ---------------------------------------------------------------------------------------------

  /** The two bytes of a bf16 value, the lower one first. */
  function Bf16Codec(): Codec {
    Codec((lo: byte, hi: byte) => Bf16.Decode(lo, hi), (x: real) => Bf16Bytes(x))
  }

  function Bf16Bytes(x: real): (byte, byte) {
    Bf16.EncodeBytes(x);
    (Bf16.Encode(x).0, Bf16.Encode(x).1)
  }

  lemma {:induction false} AbsMaxBelow(row: seq<real>, n: nat, most: real)
    requires n <= |row| && most >= 0.0 && forall c :: 0 <= c < |row| ==> Rows.Abs(row[c]) <= most
    ensures Rows.AbsMax(row, n) <= most
  {
    if n > 0 {
      AbsMaxBelow(row, n - 1, most);
    }
  }

  lemma ScaleBelow(row: seq<real>, most: real)
    requires most >= 1.0 && forall c :: 0 <= c < |row| ==> Rows.Abs(row[c]) <= most
    ensures 0.0 < Rows.RowScale(row) <= most
  {
    AbsMaxBelow(row, |row|, most);
  }

  lemma RowCell(k: Codec, bytes: seq<byte>, rows: nat, columns: nat, r: nat, c: nat)
    requires r < rows && c < columns && |bytes| == 2 * Grid.Area(columns, rows)
    ensures var p := Grid.Area(columns, r) + c;
      p < Grid.Area(columns, rows) && RowOf(k, bytes, rows, columns, r)[c] == k.decode(bytes[2 * p], bytes[2 * p + 1])
  {
    Grid.CellInside(columns, r, c, rows);
  }

  /** The scale of a row of bf16 values is never too large for bf16. */
  lemma ScaleFits(bytes: seq<byte>, rows: nat, columns: nat, r: nat)
    requires r < rows && |bytes| == 2 * Grid.Area(columns, rows)
    ensures 0.0 < Rows.RowScale(RowOf(Bf16Codec(), bytes, rows, columns, r)) <= Bf16.Largest()
  {
    var row, most := RowOf(Bf16Codec(), bytes, rows, columns, r), Bf16.Largest();
    Bf16.LargestIsLarge();
    forall c | 0 <= c < |row|
      ensures Rows.Abs(row[c]) <= most
    {
      RowCell(Bf16Codec(), bytes, rows, columns, r, c);
      var p := Grid.Area(columns, r) + c;
      DecodeBounds(bytes[2 * p], bytes[2 * p + 1]);
    }
    ScaleBelow(row, most);
  }

  lemma DecodeBounds(lo: byte, hi: byte)
    ensures Rows.Abs(Bf16Codec().decode(lo, hi)) <= Bf16.Largest()
  {
    Bf16.ValueBounds(if hi < 128 then 256 * hi + lo else 256 * (hi - 128) + lo);
  }

  /** What is served of bf16 weights with bf16 scales, for every row: within half a scale and 127 times what
      the scale lost, which is half a step of the format or one part in 256 of the scale; from the smallest
      normal scale on that is less than one scale. */
  lemma ServedByBf16(q: Converted, bytes: seq<byte>, r: nat, c: nat)
    requires StandsFor(Bf16Codec(), q, bytes) && r < q.rows && c < q.columns
    ensures Grid.Area(q.columns, r) + c < |q.weight|
    ensures var row := RowOf(Bf16Codec(), bytes, q.rows, q.columns, r);
      var scale, off := Rows.RowScale(row), Rows.Abs(Served(Bf16Codec(), q, r, c) - row[c]);
      && off <= Rows.Mul(0.5, scale) + Rows.Mul(127.0, Rows.Max(Rows.Mul(0.5, Bf16.STEP), scale / 256.0))
      && (scale >= Bf16.Normal() ==> off <= Rows.Mul(255.0 / 256.0, scale) < scale)
  {
    var k := Bf16Codec();
    var row := RowOf(k, bytes, q.rows, q.columns, r);
    var scale := Rows.RowScale(row);
    ServedNear(k, q, bytes, r, c);
    ScaleFits(bytes, q.rows, q.columns, r);
    var lost := ScaleLoss(scale);
    LossBound(Rows.Abs(Served(k, q, r, c) - row[c]), scale, lost, Bf16.STEP);
  }

  lemma ScaleLoss(scale: real) returns (lost: real)
    requires 0.0 < scale <= Bf16.Largest()
    ensures lost == Rows.Abs(Stored(Bf16Codec(), scale) - scale) <= Rows.Max(Rows.Mul(0.5, Bf16.STEP), scale / 256.0)
    ensures Bf16.Normal() == Rows.Mul(128.0, Bf16.STEP) && Bf16.STEP > 0.0
  {
    Bf16.StepIs();
    Bf16.StoreLoss(scale);
    assert Bf16Bytes(scale).0 == Bf16.Encode(scale).0 && Bf16Bytes(scale).1 == Bf16.Encode(scale).1;
    assert Bf16.Steps(128) == 128;
    lost := Rows.Abs(Stored(Bf16Codec(), scale) - scale);
  }

  lemma LossBound(off: real, scale: real, lost: real, step: real)
    requires step > 0.0 && off <= Rows.Mul(0.5, scale) + Rows.Mul(127.0, lost) && lost <= Rows.Max(Rows.Mul(0.5, step), scale / 256.0)
    ensures off <= Rows.Mul(0.5, scale) + Rows.Mul(127.0, Rows.Max(Rows.Mul(0.5, step), scale / 256.0))
    ensures scale >= Rows.Mul(128.0, step) ==> off <= Rows.Mul(255.0 / 256.0, scale) < scale
  {
  }

  /** Below it a row can be lost: the one weight is the smallest number there is, its scale is written as
      zero, and zero is served. */
  lemma TinyRowIsLost()
    ensures var k, bytes: seq<byte> := Bf16Codec(), [1, 0];
      var q := Requantise(k, bytes, [1, 1]);
      && q.Some? && Grid.Area(q.value.columns, 0) == 0 && |q.value.weight| == 1 && |q.value.scale| == 2
      && ValueAt(k, bytes, 0) == Bf16.STEP > 0.0 && Served(k, q.value, 0, 0) == 0.0
  {
    var k, bytes: seq<byte> := Bf16Codec(), [1, 0];
    assert Grid.Area(1, 1) == Grid.Area(1, 0) + 1 == 1;
    var row := RowOf(k, bytes, 1, 1, 0);
    TinyValue();
    RowCell(k, bytes, 1, 1, 0, 0);
    assert row[0] == k.decode(1, 0);
    assert row == [Bf16.STEP];
    TinyScale(row);
    ScaleAt(k, bytes, 1, 1, 1, 0);
  }

  lemma TinyValue()
    ensures Bf16Codec().decode(1, 0) == Bf16.Decode(1, 0) == Bf16.STEP > 0.0
  {
    Bf16.StepIs();
    assert Bf16.Steps(1) == 1;
  }

  lemma TinyScale(row: seq<real>)
    requires row == [Bf16.STEP]
    ensures Stored(Bf16Codec(), Rows.RowScale(row)) == 0.0
  {
    Bf16.StepIs();
    Bf16.LargestIsLarge();
    assert Rows.AbsMax(row, 1) == Rows.Max(Rows.AbsMax(row, 0), Rows.Abs(row[0])) == Bf16.STEP;
    Bf16.StoredZero(Rows.RowScale(row));
  }

  lemma RequantiseStands(k: Codec, bytes: seq<byte>, shape: seq<nat>)
    requires Requantise(k, bytes, shape).Some?
    ensures StandsFor(k, Requantise(k, bytes, shape).value, bytes)
  {
    var rows, columns := shape[0], shape[1];
    forall r: nat | r < rows
      ensures var row, scales := RowOf(k, bytes, rows, columns, r), Scales(k, bytes, rows, columns, rows);
        (scales[2 * r], scales[2 * r + 1]) == k.encode(Rows.RowScale(row))
    {
      ScaleAt(k, bytes, rows, columns, rows, r);
    }
    forall r: nat, c: nat | r < rows && c < columns
      ensures Grid.Area(columns, r) + c < Grid.Area(columns, rows)
      ensures var row := RowOf(k, bytes, rows, columns, r);
        Near(Signed(Weights(k, bytes, rows, columns, rows)[Grid.Area(columns, r) + c]), Rows.RowScale(row), Stored(k, Rows.RowScale(row)), row[c])
    {
      CodeNear(k, bytes, rows, columns, r, c);
    }
  }

  lemma CodeNear(k: Codec, bytes: seq<byte>, rows: nat, columns: nat, r: nat, c: nat)
    requires r < rows && c < columns && |bytes| == 2 * Grid.Area(columns, rows)
    ensures Grid.Area(columns, r) + c < Grid.Area(columns, rows)
    ensures var row := RowOf(k, bytes, rows, columns, r);
      Near(Signed(Weights(k, bytes, rows, columns, rows)[Grid.Area(columns, r) + c]), Rows.RowScale(row), Stored(k, Rows.RowScale(row)), row[c])
  {
    var row := RowOf(k, bytes, rows, columns, r);
    WeightAt(k, bytes, rows, columns, rows, r, c);
    Rows.RowCodesFaithful(row);
    StoredNear(Rows.RowCodes(row)[c], Rows.RowScale(row), Stored(k, Rows.RowScale(row)), row[c]);
  }

  /** The rewrite run with this quantiser. */
  predicate Requantises(j: Job, k: Codec, i: nat)
    requires JobOk(j) && i < |j.entries|
  {
    Convert(j, i) == Requantise(k, ReadBytes(j.data, j.entries[i].info.lo, j.entries[i].info.hi), j.entries[i].info.shape)
  }

  lemma ConvertedLoads(j: Job, i: nat, q: Converted)
    requires JobOk(j) && NamingOk(j.naming) && NoClash(j) && i < |j.entries| && Convertible(j, |j.entries|) && Fits(j, |j.entries|)
    requires IsConverted(j, j.entries[i]) && Convert(j, i) == Some(q)
    ensures Load(Header(j, |j.entries|), Body(j, |j.entries|), j.entries[i].name) == Some(Tensor(I8, [q.rows, q.columns], q.weight))
    ensures Load(Header(j, |j.entries|), Body(j, |j.entries|), j.naming.scaleName(j.entries[i].name))
            == Some(Tensor(BF16, [q.rows, 1], q.scale))
  {
    MergeKeeps(j, i);
  }

  lemma ConvertedStands(j: Job, k: Codec, i: nat, q: Converted)
    requires JobOk(j) && i < |j.entries| && Requantises(j, k, i) && Convert(j, i) == Some(q)
    ensures [q.rows, q.columns] == j.entries[i].info.shape
    ensures StandsFor(k, q, ReadBytes(j.data, j.entries[i].info.lo, j.entries[i].info.hi))
  {
    var bytes, shape := ReadBytes(j.data, j.entries[i].info.lo, j.entries[i].info.hi), j.entries[i].info.shape;
    assert Requantise(k, bytes, shape) == Some(q);
    RequantiseStands(k, bytes, shape);
  }

  /** A converted weight and its scale, read back from the new file, stand for the weight of the old. */
  lemma MeaningKept(j: Job, k: Codec, i: nat) returns (q: Converted)
    requires JobOk(j) && NamingOk(j.naming) && NoClash(j) && i < |j.entries| && Convertible(j, |j.entries|) && Fits(j, |j.entries|)
    requires IsConverted(j, j.entries[i]) && Requantises(j, k, i)
    ensures [q.rows, q.columns] == j.entries[i].info.shape
    ensures StandsFor(k, q, ReadBytes(j.data, j.entries[i].info.lo, j.entries[i].info.hi))
    ensures Load(Header(j, |j.entries|), Body(j, |j.entries|), j.entries[i].name) == Some(Tensor(I8, [q.rows, q.columns], q.weight))
    ensures Load(Header(j, |j.entries|), Body(j, |j.entries|), j.naming.scaleName(j.entries[i].name))
            == Some(Tensor(BF16, [q.rows, 1], q.scale))
  {
    q := ConversionOf(j, i);
    ConvertedStands(j, k, i, q);
    ConvertedLoads(j, i, q);
  }

  lemma ConversionOf(j: Job, i: nat) returns (q: Converted)
    requires JobOk(j) && i < |j.entries| && Convertible(j, |j.entries|) && IsConverted(j, j.entries[i])
    ensures Convert(j, i) == Some(q)
  {
    q := Convert(j, i).value;
  }
}
