/**
 * Chart projections: `sampleData.map(record => ...)` feeding a scatter or line
 * chart. Coordinates are reals; a logarithmic axis transform is passed in as a
 * function, since the model does not compute `Math.log10`.
 */
module Chart {

  /** One scatter point `{ x, y }`. */
  datatype Point = Point(x: real, y: real)

  /** `Array.prototype.map`. */
  function Project<R, P>(rows: seq<R>, f: R -> P): (points: seq<P>)
    ensures |points| == |rows|
    ensures forall i :: 0 <= i < |rows| ==> points[i] == f(rows[i])
  {
    if rows == [] then [] else [f(rows[0])] + Project(rows[1..], f)
  }
}
