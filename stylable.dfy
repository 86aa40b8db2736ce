/**
 * The `Stylable` trait (src/format/stylable.rs): a cell-wise map over a
 * string, a vector of strings or a vector of vectors of strings, in a plain
 * and in a fallible form.
 */
module Stylable {
  import opened Common

  /**
   * The three shapes that implement `Stylable`. `String`, `&str` and `&String`
   * are all `Scalar`; `Vec<String>` and `&Vec<String>` are `Row`;
   * `Vec<Vec<String>>` and `&Vec<Vec<String>>` are `Grid`.
   */
  datatype Container =
    | Scalar(text: string)
    | Row(cells: seq<string>)
    | Grid(rows: seq<seq<string>>)

  /** `b` has the constructor of `a`, as many cells per row and as many rows. */
  predicate SameShape(a: Container, b: Container) {
    match a
    case Scalar(_) => b.Scalar?
    case Row(x) => b.Row? && |b.cells| == |x|
    case Grid(x) => b.Grid? && |b.rows| == |x| && forall i :: 0 <= i < |x| ==> |b.rows[i]| == |x[i]|
  }

  /** The rows of a grid laid end to end, in row-major order. */
  function Flatten(rows: seq<seq<string>>): (cells: seq<string>)
    decreases |rows|
  {
    if rows == [] then [] else Flatten(rows[..|rows| - 1]) + rows[|rows| - 1]
  }

  /** The cells of a container in the order the source visits them. */
  function Cells(t: Container): seq<string> {
    match t
    case Scalar(s) => [s]
    case Row(x) => x
    case Grid(x) => Flatten(x)
  }

  /** `b` is `a` with every cell `s` replaced by `f(s)`. */
  predicate MapsCells(a: Container, b: Container, f: string -> string) {
    && SameShape(a, b)
    && match a
       case Scalar(s) => b.text == f(s)
       case Row(x) => forall i :: 0 <= i < |x| ==> b.cells[i] == f(x[i])
       case Grid(x) => forall i, j :: 0 <= i < |x| && 0 <= j < |x[i]| ==> b.rows[i][j] == f(x[i][j])
  }

  /** `b` is `a` with every cell `s` replaced by the success value of `f(s)`. */
  predicate CellsOk<E>(a: Container, b: Container, f: string -> Result<string, E>) {
    && SameShape(a, b)
    && match a
       case Scalar(s) => f(s) == Ok(b.text)
       case Row(x) => forall i :: 0 <= i < |x| ==> f(x[i]) == Ok(b.cells[i])
       case Grid(x) => forall i, j :: 0 <= i < |x| && 0 <= j < |x[i]| ==> f(x[i][j]) == Ok(b.rows[i][j])
  }

  /** `k` is the first position of `xs` at which `f` fails. */
  predicate FirstFailure<E>(xs: seq<string>, f: string -> Result<string, E>, k: int) {
    && 0 <= k < |xs|
    && f(xs[k]).Err?
    && forall j :: 0 <= j < k ==> f(xs[j]).Ok?
  }

  /** `Stylable::apply`: the shape-preserving map. */
  function Apply(t: Container, f: string -> string): (r: Container)
    ensures MapsCells(t, r, f)
  {
    match t
    case Scalar(s) => Scalar(f(s))
    case Row(x) => Row(seq(|x|, i requires 0 <= i < |x| => f(x[i])))
    case Grid(x) =>
      Grid(seq(|x|, i requires 0 <= i < |x| => seq(|x[i]|, j requires 0 <= j < |x[i]| => f(x[i][j]))))
  }

  /**
   * The meaning of the `Vec<String>` loop of `apply_result`: `Ok` exactly when
   * every element succeeds, then holding the results in order; otherwise the
   * error of the first failing element.
   */
  function TraverseRow<E>(xs: seq<string>, f: string -> Result<string, E>): (r: Result<seq<string>, E>)
    ensures r.Ok? <==> forall i :: 0 <= i < |xs| ==> f(xs[i]).Ok?
    ensures r.Ok? ==> |r.value| == |xs| && forall i :: 0 <= i < |xs| ==> f(xs[i]) == Ok(r.value[i])
    ensures r.Err? ==> exists k :: FirstFailure(xs, f, k) && r.error == f(xs[k]).error
    decreases |xs|
  {
    if xs == [] then Ok([])
    else
      var front := xs[..|xs| - 1];
      assert forall i :: 0 <= i < |front| ==> front[i] == xs[i];
      match TraverseRow(front, f)
      case Err(e) => Err(e)
      case Ok(done) =>
        match f(xs[|xs| - 1])
        case Err(e) => Err(e)
        case Ok(y) => Ok(done + [y])
  }

  /**
   * The meaning of the `Vec<Vec<String>>` loops: cells visited row by row,
   * `Ok` with every row's results when all succeed, otherwise the error of the
   * first failing cell in row-major order.
   */
  function TraverseGrid<E>(rows: seq<seq<string>>, f: string -> Result<string, E>): (r: Result<seq<seq<string>>, E>)
    ensures r.Ok? <==> forall k :: 0 <= k < |Flatten(rows)| ==> f(Flatten(rows)[k]).Ok?
    ensures r.Ok? ==> |r.value| == |rows| && forall i :: 0 <= i < |rows| ==> |r.value[i]| == |rows[i]|
    ensures r.Ok? ==>
      forall i, j :: 0 <= i < |rows| && 0 <= j < |rows[i]| ==> f(rows[i][j]) == Ok(r.value[i][j])
    ensures r.Err? ==>
      exists k :: FirstFailure(Flatten(rows), f, k) && r.error == f(Flatten(rows)[k]).error
    decreases |rows|
  {
    if rows == [] then Ok([])
    else
      var front := rows[..|rows| - 1];
      var last := rows[|rows| - 1];
      var flat := Flatten(rows);
      assert flat == Flatten(front) + last;
      assert forall i :: 0 <= i < |front| ==> front[i] == rows[i];
      match TraverseGrid(front, f)
      case Err(e) =>
        assert exists k :: FirstFailure(flat, f, k) && e == f(flat[k]).error by {
          var k :| FirstFailure(Flatten(front), f, k) && e == f(Flatten(front)[k]).error;
          assert FirstFailure(flat, f, k);
        }
        Err(e)
      case Ok(done) =>
        match TraverseRow(last, f)
        case Err(e) =>
          assert exists k :: FirstFailure(flat, f, k) && e == f(flat[k]).error by {
            var k :| FirstFailure(last, f, k) && e == f(last[k]).error;
            assert flat[|Flatten(front)| + k] == last[k];
            assert FirstFailure(flat, f, |Flatten(front)| + k);
          }
          assert !(forall k :: 0 <= k < |flat| ==> f(flat[k]).Ok?);
          Err(e)
        case Ok(row) => Ok(done + [row])
  }

  /**
   * `Stylable::apply_result`: `Ok` exactly when `f` succeeds on every cell,
   * then of the same shape with each cell replaced by its result; otherwise
   * the error of the first failing cell in visiting order.
   */
  function ApplyResult<E>(t: Container, f: string -> Result<string, E>): (r: Result<Container, E>)
    ensures r.Ok? <==> forall k :: 0 <= k < |Cells(t)| ==> f(Cells(t)[k]).Ok?
    ensures r.Ok? ==> CellsOk(t, r.value, f)
    ensures r.Err? ==> exists k :: FirstFailure(Cells(t), f, k) && r.error == f(Cells(t)[k]).error
  {
    match t
    case Scalar(s) =>
      (match f(s)
       case Err(e) => assert Cells(t)[0] == s; assert FirstFailure(Cells(t), f, 0); Err(e)
       case Ok(v) => Ok(Scalar(v)))
    case Row(x) =>
      (match TraverseRow(x, f)
       case Err(e) => assert Cells(t) == x; Err(e)
       case Ok(v) => Ok(Row(v)))
    case Grid(x) =>
      (match TraverseGrid(x, f)
       case Err(e) => assert Cells(t) == Flatten(x); Err(e)
       case Ok(v) => Ok(Grid(v)))
  }

  /** Once a prefix of a row has failed, the rest of the row is never looked at. */
  lemma {:induction false} RowErrorPersists<E>(xs: seq<string>, f: string -> Result<string, E>, n: nat)
    requires n <= |xs| && TraverseRow(xs[..n], f).Err?
    ensures TraverseRow(xs, f) == TraverseRow(xs[..n], f)
    decreases |xs| - n
  {
    if n < |xs| {
      var front := xs[..|xs| - 1];
      assert front[..n] == xs[..n];
      RowErrorPersists(front, f, n);
    } else {
      assert xs[..n] == xs;
    }
  }

  /** Once a prefix of the rows has failed, the remaining rows are never looked at. */
  lemma {:induction false} GridErrorPersists<E>(rows: seq<seq<string>>, f: string -> Result<string, E>, n: nat)
    requires n <= |rows| && TraverseGrid(rows[..n], f).Err?
    ensures TraverseGrid(rows, f) == TraverseGrid(rows[..n], f)
    decreases |rows| - n
  {
    if n < |rows| {
      var front := rows[..|rows| - 1];
      assert front[..n] == rows[..n];
      GridErrorPersists(front, f, n);
    } else {
      assert rows[..n] == rows;
    }
  }

  /**
   * `apply_result` for `Vec<String>` as the source writes it: a `for` loop
   * pushing each result and returning at the first `?` that fails.
   */
  method ApplyResultRow<E>(xs: seq<string>, f: string -> Result<string, E>) returns (r: Result<seq<string>, E>)
    ensures r == TraverseRow(xs, f)
  {
    var out: seq<string> := [];
    for i := 0 to |xs|
      invariant TraverseRow(xs[..i], f) == Ok(out)
    {
      var y := f(xs[i]);
      assert xs[..i + 1][..i] == xs[..i];
      if y.Err? {
        RowErrorPersists(xs, f, i + 1);
        return Err(y.error);
      }
      out := out + [y.value];
    }
    assert xs[..|xs|] == xs;
    return Ok(out);
  }

  /**
   * `apply_result` for `Vec<Vec<String>>`: an outer `for` loop over the rows,
   * an inner one filling `new_row`, and a return at the first failing cell.
   */
  method ApplyResultGrid<E>(rows: seq<seq<string>>, f: string -> Result<string, E>)
    returns (r: Result<seq<seq<string>>, E>)
    ensures r == TraverseGrid(rows, f)
  {
    var out: seq<seq<string>> := [];
    for i := 0 to |rows|
      invariant TraverseGrid(rows[..i], f) == Ok(out)
    {
      var row := rows[i];
      var newRow: seq<string> := [];
      assert rows[..i + 1][..i] == rows[..i] && rows[..i + 1][i] == row;
      for j := 0 to |row|
        invariant TraverseRow(row[..j], f) == Ok(newRow)
      {
        var y := f(row[j]);
        assert row[..j + 1][..j] == row[..j];
        if y.Err? {
          RowErrorPersists(row, f, j + 1);
          GridErrorPersists(rows, f, i + 1);
          return Err(y.error);
        }
        newRow := newRow + [y.value];
      }
      assert row[..|row|] == row;
      out := out + [newRow];
    }
    assert rows[..|rows|] == rows;
    return Ok(out);
  }

  /** `apply` visits every cell once, in order, and keeps nothing else. */
  lemma {:induction false} CellsOfApply(t: Container, f: string -> string)
    ensures |Cells(Apply(t, f))| == |Cells(t)|
    ensures forall k :: 0 <= k < |Cells(t)| ==> Cells(Apply(t, f))[k] == f(Cells(t)[k])
  {
    if t.Grid? {
      FlattenMapped(t.rows, Apply(t, f).rows, f);
    }
  }

  lemma {:induction false} FlattenMapped(rows: seq<seq<string>>, out: seq<seq<string>>, f: string -> string)
    requires |out| == |rows|
    requires forall i :: 0 <= i < |rows| ==> |out[i]| == |rows[i]|
    requires forall i, j :: 0 <= i < |rows| && 0 <= j < |rows[i]| ==> out[i][j] == f(rows[i][j])
    ensures |Flatten(out)| == |Flatten(rows)|
    ensures forall k :: 0 <= k < |Flatten(rows)| ==> Flatten(out)[k] == f(Flatten(rows)[k])
    decreases |rows|
  {
    if rows != [] {
      var n := |rows| - 1;
      FlattenMapped(rows[..n], out[..n], f);
      assert Flatten(rows) == Flatten(rows[..n]) + rows[n];
      assert Flatten(out) == Flatten(out[..n]) + out[n];
    }
  }

  /** `apply_result` with a function that never fails is `apply`. */
  lemma {:induction false} ApplyResultOfTotal<E>(t: Container, f: string -> Result<string, E>, g: string -> string)
    requires forall s :: f(s) == Ok(g(s))
    ensures ApplyResult(t, f) == Ok(Apply(t, g))
  {
    var r := ApplyResult(t, f);
    var a := Apply(t, g);
    match t
    case Scalar(s) =>
    case Row(x) =>
      assert r.value.cells == a.cells;
    case Grid(x) =>
      assert forall i :: 0 <= i < |x| ==> r.value.rows[i] == a.rows[i];
      assert r.value.rows == a.rows;
  }

  /** A container without cells comes back unchanged, whatever `f` would do. */
  lemma NoCellsUnchanged<E>(t: Container, f: string -> Result<string, E>)
    requires |Cells(t)| == 0
    ensures ApplyResult(t, f) == Ok(t)
  {
    var r := ApplyResult(t, f);
    if t.Grid? {
      FlattenEmpty(t.rows);
      assert r.value.rows == t.rows;
    }
  }

  lemma {:induction false} FlattenEmpty(rows: seq<seq<string>>)
    requires |Flatten(rows)| == 0
    ensures forall i :: 0 <= i < |rows| ==> rows[i] == []
    decreases |rows|
  {
    if rows != [] {
      FlattenEmpty(rows[..|rows| - 1]);
    }
  }

  /** When every cell fails with the same error, a container with a cell fails with it. */
  lemma UniformFailure<E>(t: Container, f: string -> Result<string, E>, e: E)
    requires forall s :: f(s) == Err(e)
    requires |Cells(t)| > 0
    ensures ApplyResult(t, f) == Err(e)
  {
    assert f(Cells(t)[0]).Err?;
  }
}
