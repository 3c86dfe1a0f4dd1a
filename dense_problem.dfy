/** The dense training problem as `read_problem_sparse` lays it out: all
    instances in one flat buffer, a row of fixed stride per instance, the
    features first and the bias term (when there is one) in the last slot.
    `samples` is the MATLAB matrix in its column-major storage; in column
    format each column is an instance, in row format each row is. */
module DenseProblem {
  import opened Values

  /** Slots per instance, which is also the feature count `n` the solver sees. */
  function Stride(maxIndex: nat, withBias: bool): nat
  {
    if withBias then maxIndex + 1 else maxIndex
  }

  /** The two element counts of the allocation, with and without a bias
      slot, are both `l` strides. */
  lemma ElementCount(maxIndex: nat, l: nat, withBias: bool)
    ensures withBias ==> (maxIndex + 1) * l == l * Stride(maxIndex, withBias)
    ensures !withBias ==> maxIndex * l == l * Stride(maxIndex, withBias)
  {
  }

  lemma MulComm(a: nat, b: nat)
    ensures a * b == b * a
  {
  }

  /** Moving on from row `i` to row `i + 1` advances by one stride and stays
      within the `l` rows. */
  lemma NextRow(i: nat, l: nat, stride: nat)
    requires i < l
    ensures (i + 1) * stride == i * stride + stride <= l * stride
  {
    MulMono(i + 1, l, stride);
  }

  lemma MulBound(a: nat, b: nat, x: nat, y: nat)
    requires x < a && y < b
    ensures x * b + y < a * b
  {
    calc {
      x * b + y;
    < x * b + b;
    == (x + 1) * b;
    <= { MulMono(x + 1, a, b); } a * b;
    }
  }

  lemma MulMono(x: nat, y: nat, b: nat)
    requires x <= y
    ensures x * b <= y * b
  {
    assert y * b == x * b + (y - x) * b;
  }

  /** Feature `j` of instance `i`, read from the column-major matrix. */
  function Feature<F>(samples: seq<F>, l: nat, maxIndex: nat, colFormat: bool, i: nat, j: nat): F
    requires |samples| == l * maxIndex && i < l && j < maxIndex
  {
    if colFormat then
      MulBound(l, maxIndex, i, j);
      samples[i * maxIndex + j]
    else
      MulBound(maxIndex, l, j, i);
      samples[j * l + i]
  }

  /** The row of instance `i` in the flat buffer. */
  function Row<F>(samples: seq<F>, l: nat, maxIndex: nat, colFormat: bool, bias: Option<F>, i: nat): seq<F>
    requires |samples| == l * maxIndex && i < l
  {
    seq(maxIndex, j requires 0 <= j < maxIndex => Feature(samples, l, maxIndex, colFormat, i, j))
    + (if bias.Some? then [bias.value] else [])
  }

  /** The flat buffer holding the rows of the first `count` instances. */
  function Layout<F>(samples: seq<F>, l: nat, maxIndex: nat, colFormat: bool, bias: Option<F>,
                     count: nat): (r: seq<F>)
    requires |samples| == l * maxIndex && count <= l
    ensures |r| == count * Stride(maxIndex, bias.Some?)
  {
    if count == 0 then []
    else Layout(samples, l, maxIndex, colFormat, bias, count - 1)
         + Row(samples, l, maxIndex, colFormat, bias, count - 1)
  }

  /** The buffer of the whole problem. */
  function DenseLayout<F>(samples: seq<F>, l: nat, maxIndex: nat, colFormat: bool, bias: Option<F>): seq<F>
    requires |samples| == l * maxIndex
  {
    Layout(samples, l, maxIndex, colFormat, bias, l)
  }

  /** Where each row starts: the pointer `prob.x[i]` as an offset into the buffer. */
  function RowOffsets(l: nat, stride: nat): seq<nat>
  {
    seq(l, i => i * stride)
  }

  /** The offset of row `i` points at that instance's row: the `stride` slots
      from there on are exactly `Row(.., i)`, and they lie inside the buffer. */
  lemma RowAtOffset<F>(samples: seq<F>, l: nat, maxIndex: nat, colFormat: bool, bias: Option<F>, i: nat)
    requires |samples| == l * maxIndex && i < l
    ensures var off := RowOffsets(l, Stride(maxIndex, bias.Some?))[i];
            var stride := Stride(maxIndex, bias.Some?);
            off + stride <= |DenseLayout(samples, l, maxIndex, colFormat, bias)|
            && DenseLayout(samples, l, maxIndex, colFormat, bias)[off .. off + stride]
               == Row(samples, l, maxIndex, colFormat, bias, i)
  {
    var stride := Stride(maxIndex, bias.Some?);
    var off := i * stride;
    NextRow(i, l, stride);
    var buffer := DenseLayout(samples, l, maxIndex, colFormat, bias);
    var row := Row(samples, l, maxIndex, colFormat, bias, i);
    forall j | 0 <= j < stride
      ensures buffer[off .. off + stride][j] == row[j]
    {
      PrefixAt(samples, l, maxIndex, colFormat, bias, l, i, j);
    }
  }

  /** The buffer is exactly full, and slot `i * stride + j` holds feature `j`
      of instance `i` (taken from column `i` in column format, from row `i` in
      row format) or, in the last slot of a row with a bias term, the bias. */
  lemma {:induction false} LayoutAt<F>(samples: seq<F>, l: nat, maxIndex: nat, colFormat: bool,
                                       bias: Option<F>, i: nat, j: nat)
    requires |samples| == l * maxIndex
    requires i < l && j < Stride(maxIndex, bias.Some?)
    ensures |DenseLayout(samples, l, maxIndex, colFormat, bias)| == l * Stride(maxIndex, bias.Some?)
    ensures i * Stride(maxIndex, bias.Some?) + j < l * Stride(maxIndex, bias.Some?)
    ensures j < maxIndex ==> i * maxIndex + j < |samples| && j * l + i < |samples|
    ensures j < maxIndex && colFormat ==>
      DenseLayout(samples, l, maxIndex, colFormat, bias)[i * Stride(maxIndex, bias.Some?) + j]
      == samples[i * maxIndex + j]
    ensures j < maxIndex && !colFormat ==>
      DenseLayout(samples, l, maxIndex, colFormat, bias)[i * Stride(maxIndex, bias.Some?) + j]
      == samples[j * l + i]
    ensures j == maxIndex ==>
      bias.Some? && DenseLayout(samples, l, maxIndex, colFormat, bias)[i * Stride(maxIndex, bias.Some?) + j]
                    == bias.value
  {
    var stride := Stride(maxIndex, bias.Some?);
    MulBound(l, stride, i, j);
    if j < maxIndex {
      MulBound(l, maxIndex, i, j);
      MulBound(maxIndex, l, j, i);
    }
    PrefixAt(samples, l, maxIndex, colFormat, bias, l, i, j);
  }

  lemma {:induction false} PrefixAt<F>(samples: seq<F>, l: nat, maxIndex: nat, colFormat: bool,
                                       bias: Option<F>, count: nat, i: nat, j: nat)
    requires |samples| == l * maxIndex && count <= l
    requires i < count && j < Stride(maxIndex, bias.Some?)
    ensures i * Stride(maxIndex, bias.Some?) + j < count * Stride(maxIndex, bias.Some?)
    ensures Layout(samples, l, maxIndex, colFormat, bias, count)[i * Stride(maxIndex, bias.Some?) + j]
            == Row(samples, l, maxIndex, colFormat, bias, i)[j]
    decreases count
  {
    var stride := Stride(maxIndex, bias.Some?);
    MulBound(count, stride, i, j);
    var front := Layout(samples, l, maxIndex, colFormat, bias, count - 1);
    assert Layout(samples, l, maxIndex, colFormat, bias, count)
        == front + Row(samples, l, maxIndex, colFormat, bias, count - 1);
    if i < count - 1 {
      PrefixAt(samples, l, maxIndex, colFormat, bias, count - 1, i, j);
    } else {
      assert i * stride == |front|;
    }
  }

  /** `q * m + r` divided by `m` gives back `q` and `r` when `r < m`. */
  lemma DivModOfRow(q: nat, r: nat, m: nat)
    requires r < m
    ensures (q * m + r) / m == q && (q * m + r) % m == r
  {
    var k := q * m + r;
    var d, e := k / m, k % m;
    assert k == d * m + e && 0 <= e < m;
    if d > q {
      MulMono(q + 1, d, m);
      assert false;
    } else if d < q {
      MulMono(d + 1, q, m);
      assert false;
    }
  }

  /** The column-major storage of the transpose of a `rows` x `cols`
      column-major matrix. */
  function Transpose<F>(samples: seq<F>, rows: nat, cols: nat): (t: seq<F>)
    requires |samples| == rows * cols
    ensures |t| == rows * cols
  {
    if cols == 0 then []
    else
      seq(rows * cols, k requires 0 <= k < rows * cols =>
        TransposeIndex(k, rows, cols);
        samples[(k % cols) * rows + k / cols])
  }

  /** Entry (r, c) of the transpose is entry (c, r) of the matrix: in
      column-major storage, `r + c * rows` of a `rows` x `cols` matrix becomes
      `r * cols + c` of its `cols` x `rows` transpose. */
  lemma TransposeAt<F>(samples: seq<F>, rows: nat, cols: nat, r: nat, c: nat)
    requires |samples| == rows * cols && r < rows && c < cols
    ensures r * cols + c < rows * cols && c * rows + r < rows * cols
    ensures Transpose(samples, rows, cols)[r * cols + c] == samples[c * rows + r]
  {
    MulBound(rows, cols, r, c);
    MulBound(cols, rows, c, r);
    DivModOfRow(r, c, cols);
  }

  lemma TransposeIndex(k: nat, rows: nat, cols: nat)
    requires cols > 0 && k < rows * cols
    ensures (k % cols) * rows + k / cols < rows * cols
  {
    var q, r := k / cols, k % cols;
    assert k == q * cols + r;
    if q >= rows {
      MulMono(rows, q, cols);
      assert false;
    }
    MulBound(cols, rows, r, q);
  }

  /** Row format reads the matrix as column format reads its transpose: the
      dense row-format branch does in place what the transposition the
      source comments out would have done. */
  lemma {:induction false} RowFormatIsTransposedColumnFormat<F>(samples: seq<F>, rows: nat, cols: nat,
                                                                bias: Option<F>)
    requires |samples| == rows * cols
    ensures DenseLayout(samples, rows, cols, false, bias)
         == DenseLayout(Transpose(samples, rows, cols), rows, cols, true, bias)
  {
    TransposedPrefix(samples, rows, cols, bias, rows);
  }

  lemma {:induction false} TransposedPrefix<F>(samples: seq<F>, rows: nat, cols: nat, bias: Option<F>,
                                               count: nat)
    requires |samples| == rows * cols && count <= rows
    ensures Layout(samples, rows, cols, false, bias, count)
         == Layout(Transpose(samples, rows, cols), rows, cols, true, bias, count)
    decreases count
  {
    if count > 0 {
      TransposedPrefix(samples, rows, cols, bias, count - 1);
      var t := Transpose(samples, rows, cols);
      var i := count - 1;
      forall j | 0 <= j < cols
        ensures Feature(samples, rows, cols, false, i, j) == Feature(t, rows, cols, true, i, j)
      {
        MulBound(rows, cols, i, j);
        DivModOfRow(i, j, cols);
      }
      assert Row(samples, rows, cols, false, bias, i) == Row(t, rows, cols, true, bias, i);
    }
  }
}
