/** Looking up a GPU profile: each feature is matched to the nearest entry of its index row.

  Rows and features are compared on a base-2 logarithmic scale; the logarithm of a positive
  number is a parameter, that of zero is below every entry.
  */
module GpuProfile {

  datatype Error = MissingValues | SizeMismatch | NegativeFeature | EmptyRow

  datatype Result<+T> = Ok(value: T) | Err(error: Error)

  datatype Log = MinusInfinity | Finite(value: real)

  const SIGNATURE_TOLERANCE := 0.5

  function Log2(log: real -> real, x: real): Log {
    if x > 0.0 then Finite(log(x)) else MinusInfinity
  }

  predicate Below(v: Log, r: real) {
    v.MinusInfinity? || v.value < r
  }

  predicate Above(v: Log, r: real) {
    v.Finite? && v.value > r
  }

  ghost predicate Ascending(row: seq<real>) {
    forall i, j :: 0 <= i < j < |row| ==> row[i] <= row[j]
  }

  function Distance(a: real, b: real): (d: real)
    ensures d >= 0.0 && (d == b - a || d == a - b)
  {
    if a < b then b - a else a - b
  }

  /** Entry `k` is nearest to `v`, and of two equally near ones the higher; zero goes to the
      first entry. */
  ghost predicate Nearest(row: seq<real>, v: Log, k: int) {
    && 0 <= k < |row|
    && match v
       case MinusInfinity => k == 0
       case Finite(x) => forall j :: 0 <= j < |row| ==>
         Distance(x, row[k]) < Distance(x, row[j]) || (Distance(x, row[k]) == Distance(x, row[j]) && row[j] <= row[k])
  }

  /** The index of `v` in one row. */
  method FindIndex(row: seq<real>, v: Log) returns (k: int)
    requires row != []
    ensures 0 <= k < |row|
    ensures Ascending(row) ==> Nearest(row, v, k)
  {
    if |row| == 1 {
      return 0;
    }
    var size := |row|;
    if Below(v, row[0]) {
      return 0;
    } else if Above(v, row[size - 1]) {
      return size - 1;
    }
    var left, right := 0, size - 1;
    while left < right - 1
      invariant 0 <= left < right < size
      invariant row[left] <= v.value && (Ascending(row) ==> v.value <= row[right])
    {
      var mid := (left + right) / 2;
      if Below(v, row[mid]) {
        right := mid;
      } else if Above(v, row[mid]) {
        left := mid;
      } else {
        return mid;
      }
    }
    if Below(v, row[left] + (row[right] - row[left]) * SIGNATURE_TOLERANCE) {
      k := left;
    } else {
      k := right;
    }
  }

  /** The first error in the source's order of checks, or for every feature the nearest entry
      to its logarithm; of two equally near entries the higher, and the first for zero. */
  method GetSignature(indexes: seq<seq<real>>, log: real -> real, features: seq<real>) returns (r: Result<seq<int>>)
    ensures r == Err(MissingValues) <==> features == []
    ensures r == Err(SizeMismatch) <==> features != [] && |indexes| != |features|
    ensures r == Err(NegativeFeature) <==>
      features != [] && |indexes| == |features| && exists i :: 0 <= i < |features| && features[i] < 0.0
    ensures r == Err(EmptyRow) <==>
      && features != [] && |indexes| == |features|
      && (forall i :: 0 <= i < |features| ==> features[i] >= 0.0) && exists i :: 0 <= i < |indexes| && indexes[i] == []
    ensures r.Ok? ==> |r.value| == |features| == |indexes|
    ensures r.Ok? ==> forall i :: 0 <= i < |features| ==> 0 <= r.value[i] < |indexes[i]|
    ensures r.Ok? ==> forall i :: 0 <= i < |features| && Ascending(indexes[i]) && features[i] == 0.0 ==> r.value[i] == 0
    ensures r.Ok? ==> forall i :: 0 <= i < |features| && Ascending(indexes[i]) && features[i] > 0.0 ==>
      Nearest(indexes[i], Finite(log(features[i])), r.value[i])
  {
    if |features| == 0 {
      return Err(MissingValues);
    }
    if |indexes| != |features| {
      return Err(SizeMismatch);
    }
    var formalized := [];
    for i := 0 to |features|
      invariant |formalized| == i
      invariant forall j :: 0 <= j < i ==> features[j] >= 0.0 && formalized[j] == Log2(log, features[j])
    {
      if features[i] < 0.0 {
        return Err(NegativeFeature);
      }
      formalized := formalized + [Log2(log, features[i])];
    }
    var ret := new int[|features|](_ => 0);
    for i := 0 to |features|
      invariant forall j :: 0 <= j < i ==>
        0 <= ret[j] < |indexes[j]| && (Ascending(indexes[j]) ==> Nearest(indexes[j], formalized[j], ret[j]))
    {
      if |indexes[i]| == 0 {
        return Err(EmptyRow);
      }
      ret[i] := FindIndex(indexes[i], formalized[i]);
    }
    r := Ok(ret[..]);
  }
}
