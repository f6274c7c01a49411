/**
  The three list operations the form applies to its education and skill
  sections, written once for any element type. Entries carry no identity:
  they are addressed by position only.
 */
module Sections {

  /** `[...s, x]`. */
  function Append<T>(s: seq<T>, x: T): (r: seq<T>)
    ensures |r| == |s| + 1
    ensures r[|s|] == x
    ensures forall j :: 0 <= j < |s| ==> r[j] == s[j]
  {
    s + [x]
  }

  /** Copy the list, then overwrite position `i`: `const c = [...s]; c[i] = x`. */
  function ReplaceAt<T>(s: seq<T>, i: nat, x: T): (r: seq<T>)
    requires i < |s|
    ensures |r| == |s|
    ensures r[i] == x
    ensures forall j :: 0 <= j < |s| && j != i ==> r[j] == s[j]
  {
    s[i := x]
  }

  /**
    `s.filter((_, i) => i !== index)`: keep exactly the elements whose
    position differs from `index`. Any integer is accepted; a position that
    names no element keeps everything.
   */
  function RemoveAt<T>(s: seq<T>, index: int): (r: seq<T>)
    ensures 0 <= index < |s| ==> |r| == |s| - 1
    ensures !(0 <= index < |s|) ==> r == s
    ensures forall j :: 0 <= j < |r| && j < index ==> r[j] == s[j]
    ensures forall j :: 0 <= index <= j < |r| ==> r[j] == s[j + 1]
    decreases |s|
  {
    if |s| == 0 then []
    else
      var last := |s| - 1;
      var kept := RemoveAt(s[..last], index);
      if last == index then kept else kept + [s[last]]
  }

  /** The filter, as the loop that visits each position once and keeps it unless it is `index`. */
  method Filter<T>(s: seq<T>, index: int) returns (r: seq<T>)
    ensures r == RemoveAt(s, index)
  {
    r := [];
    var i := 0;
    while i < |s|
      invariant 0 <= i <= |s|
      invariant r == RemoveAt(s[..i], index)
    {
      assert s[..i + 1][..i] == s[..i];
      if i != index {
        r := r + [s[i]];
      }
      i := i + 1;
    }
    assert s[..|s|] == s;
  }

  /** Removing an existing position splices the list around it. */
  lemma RemoveAtIsSplice<T>(s: seq<T>, index: int)
    requires 0 <= index < |s|
    ensures RemoveAt(s, index) == s[..index] + s[index + 1..]
  {
  }

  /** Appending an element and then removing the position it landed on gives back the list. */
  lemma RemoveAppended<T>(s: seq<T>, x: T)
    ensures RemoveAt(Append(s, x), |s|) == s
  {
  }
}
