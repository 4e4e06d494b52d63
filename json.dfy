/**
  The values `json.load` produces, as far as the configuration validator can
  tell them apart: Python's `None`, `bool`, `int`, `float`, `str`, `list` and
  `dict` (with string keys).
 */
module Json {

  datatype JValue =
    | JNull
    | JBool(b: bool)
    | JInt(n: int)
    | JFloat(x: real)
    | JString(s: string)
    | JArray(items: seq<JValue>)
    | JObject(fields: map<string, JValue>)

  /** Python's `needle in hay` on two strings: `needle` occurs as a contiguous substring. */
  function Contains(hay: string, needle: string): (r: bool)
    ensures r <==> exists i :: 0 <= i <= |hay| - |needle| && IsPrefix(needle, hay[i..])
  {
    if |hay| < |needle| then false
    else if IsPrefix(needle, hay) then (assert hay == hay[0..]; true)
    else
      var rest := Contains(hay[1..], needle);
      assert forall i :: 1 <= i <= |hay| - |needle| ==> hay[i..] == hay[1..][i - 1..];
      assert rest ==> exists i :: 0 <= i <= |hay| - |needle| && IsPrefix(needle, hay[i..]) by {
        if rest {
          var i :| 0 <= i <= |hay[1..]| - |needle| && IsPrefix(needle, hay[1..][i..]);
          assert hay[i + 1..] == hay[1..][i..];
        }
      }
      rest
  }

  predicate IsPrefix(p: string, s: string) {
    |p| <= |s| && s[..|p|] == p
  }
}
