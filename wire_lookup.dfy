/** The search that every string-to-enum decoder performs: walk the enum's
    `values()` in declaration order and return the first member whose wire
    string equals the input exactly. */
module WireLookup {
  import opened Wrappers

  function Find<T(==)>(values: seq<T>, wire: T -> string, s: string): (r: Option<T>)
    ensures r.Some? ==> r.value in values && wire(r.value) == s
    ensures r.None? <==> forall v :: v in values ==> wire(v) != s
    ensures r.Some? ==> exists k :: 0 <= k < |values| && values[k] == r.value
                           && forall j :: 0 <= j < k ==> wire(values[j]) != s
  {
    if |values| == 0 then None
    else if wire(values[0]) == s then Some(values[0])
    else
      var r := Find(values[1..], wire, s);
      assert forall v :: v in values ==> v == values[0] || v in values[1..];
      if r.Some? then
        var k :| 0 <= k < |values[1..]| && values[1..][k] == r.value
                 && forall j :: 0 <= j < k ==> wire(values[1..][j]) != s;
        assert values[k + 1] == r.value;
        assert forall j :: 0 <= j < k + 1 ==> wire(values[j]) != s by {
          forall j | 0 <= j < k + 1 ensures wire(values[j]) != s {
            if j > 0 { assert values[j] == values[1..][j - 1]; }
          }
        }
        r
      else r
  }
}
