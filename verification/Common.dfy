/** Values shared by the components. */
module Common {
  datatype Option<+T> = None | Some(value: T)

  datatype Side = Long | Short

  function Abs(x: real): real { if x < 0.0 then -x else x }

  function Min(a: real, b: real): real { if a <= b then a else b }

  function Max(a: real, b: real): real { if a >= b then a else b }
}
