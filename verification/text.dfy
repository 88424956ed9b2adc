/** Byte strings as the C++ sources use them: a `string` holds one `char` per byte. */
module Text {

  datatype Option<+T> = None | Some(value: T)

  predicate Occurs(s: string, needle: string, at: nat) {
    at + |needle| <= |s| && s[at..at + |needle|] == needle
  }

  /** `std::string::find`: the first occurrence of `needle` at or after `from`. */
  function Find(s: string, needle: string, from: nat): (r: Option<nat>)
    ensures r.Some? ==> from <= r.value && Occurs(s, needle, r.value)
    ensures r.Some? ==> forall k :: from <= k < r.value ==> !Occurs(s, needle, k)
    ensures r.None? ==> forall k :: from <= k ==> !Occurs(s, needle, k)
    decreases |s| - from
  {
    if from + |needle| > |s| then None
    else if Occurs(s, needle, from) then Some(from)
    else Find(s, needle, from + 1)
  }

  /** `separator`-joined text of a list. */
  function Join(parts: seq<string>, separator: string): string {
    if parts == [] then ""
    else if |parts| == 1 then parts[0]
    else Join(parts[..|parts| - 1], separator) + separator + parts[|parts| - 1]
  }
}
