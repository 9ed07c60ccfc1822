/** A label (`text`) and a colour for an enumerated code, and the fallback the
    client shows for a code it does not know. */
module Labels {
  import opened Js
  import opened Tables

  datatype Info = Info(text: string, color: string)

  const FallbackColor: string := "#999"

  /** `TABLE[code] || { label: code, color: '#999' }`. */
  function InfoOf(t: Table<Info>, code: string): (r: Info)
    ensures code in Keys(t) ==> Lookup(t, code) == Some(r)
    ensures code !in Keys(t) ==> r == Info(code, FallbackColor)
  {
    LookupOr(t, code, Info(code, FallbackColor))
  }

  /** No entry of the table uses the fallback colour. */
  predicate NoFallbackColor(t: Table<Info>) {
    forall i :: 0 <= i < |t| ==> t[i].1.color != FallbackColor
  }

  /** In a table that never uses the fallback colour, the fallback colour
      tells exactly the unknown codes. */
  lemma FallbackColorIffUnknown(t: Table<Info>, code: string)
    requires NoFallbackColor(t)
    ensures InfoOf(t, code).color == FallbackColor <==> code !in Keys(t)
  {
    if code in Keys(t) {
      var r := InfoOf(t, code);
      assert (code, r) in t;
    }
  }
}
