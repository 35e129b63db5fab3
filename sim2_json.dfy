/** The flat JSON shape of a Sim(2) value: an object with the keys "R" (the
    2x2 block flattened row-major into four numbers), "t" (two numbers) and
    "s" (a number). Reading and writing the file itself is not modelled; this
    is the conversion between such an object and a value. */
module SimilarityJson {
  import opened LinAlg
  import opened Similarity

  /** A JSON value as the record uses it: a number or a list of numbers. */
  datatype JsonValue = Number(n: real) | Array(items: seq<real>)

  /** A JSON object: keys mapped to values. */
  type JsonObject = map<string, JsonValue>

  /** The key holds a list of exactly n numbers. */
  predicate HasArray(obj: JsonObject, key: string, n: nat) {
    key in obj && obj[key].Array? && |obj[key].items| == n
  }

  /** "R" holds four numbers, "t" two and "s" is a number or absent. */
  predicate WellShaped(obj: JsonObject) {
    HasArray(obj, "R", 4) && HasArray(obj, "t", 2) && ("s" in obj ==> obj["s"].Number?)
  }

  /** The scale is present and non-zero. */
  predicate HasScale(obj: JsonObject) {
    "s" in obj && obj["s"].Number? && obj["s"].n != 0.0
  }

  /** Serialization: R row-major as [R00, R01, R10, R11], t as [tx, ty] and
      s unchanged, under exactly the keys "R", "t" and "s". */
  function SaveAsJson(x: Sim2): (obj: JsonObject)
    ensures obj.Keys == {"R", "t", "s"}
    ensures HasArray(obj, "R", 4) && HasArray(obj, "t", 2)
    ensures forall i, j :: 0 <= i < 2 && 0 <= j < 2 ==> obj["R"].items[2 * i + j] == At(x.R, i, j)
    ensures obj["t"].items == [x.t.x, x.t.y]
    ensures obj["s"] == Number(x.s)
  {
    map["R" := Array([x.R.m00, x.R.m01, x.R.m10, x.R.m11]),
        "t" := Array([x.t.x, x.t.y]),
        "s" := Number(x.s)]
  }

  /** Deserialization: R is reshaped to 2x2 row-major, t read as a vector
      and the value constructed as by New. A list of the wrong length is an
      InvalidShape error; a zero or missing scale is the same InvalidScale
      error that direct construction raises. Keys other than the three are
      ignored. A successful read is exactly what saving its result writes
      back under the three keys. */
  function FromJson(obj: JsonObject): (r: Result<Sim2>)
    ensures r.Ok? <==> WellShaped(obj) && HasScale(obj)
    ensures r.Err? ==> (r.error == InvalidShape <==> !WellShaped(obj))
    ensures r.Ok? ==> Valid(r.value)
    ensures r.Ok? ==> forall key :: key in SaveAsJson(r.value) ==> key in obj && obj[key] == SaveAsJson(r.value)[key]
  {
    if !WellShaped(obj) then Err(InvalidShape)
    else
      var R, t := obj["R"].items, obj["t"].items;
      var s := if "s" in obj then obj["s"].n else 0.0;
      assert obj["R"] == Array([R[0], R[1], R[2], R[3]]);
      assert obj["t"] == Array([t[0], t[1]]);
      New(Mat2(R[0], R[1], R[2], R[3]), Vec2(t[0], t[1]), s)
  }

  /** Saving a value and reading the record back gives the value exactly. */
  lemma JsonRoundTrip(x: Sim2)
    requires Valid(x)
    ensures FromJson(SaveAsJson(x)) == Ok(x)
  {
  }
}
