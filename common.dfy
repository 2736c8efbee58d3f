/**
 * Values shared by the server and both browser components: an optional value,
 * the slots of a JavaScript array, and the two player symbols.
 *
 * A JavaScript array is modelled as a sequence of slots.  A slot is either a
 * hole (an index never written, read back as `undefined`), an explicit `null`,
 * or a value.  Writing past the end of an array extends it with holes, and a
 * write at an index that is not an array index (a negative number, say) adds
 * a named property and leaves the elements alone.
 */
module Common {

  datatype Option<T> = None | Some(value: T)

  datatype Slot<T> = Hole | Null | Val(v: T)

  /** JavaScript truthiness of a string that may be missing: `undefined`, `null` and `""` are falsy. */
  function Truthy(x: Slot<string>): (b: bool)
    ensures b <==> x !in {Hole, Null, Val("")}
  {
    x.Val? && x.v != ""
  }

  /** The two symbols of the 3x3 game, `'X'` and `'O'` in the source. */
  datatype Symbol = X | O {
    /** The `currentPlayer === 'X' ? 'O' : 'X'` toggle. */
    function Other(): (s: Symbol)
      ensures s != this
    {
      if this == X then O else X
    }

    function Text(): (t: string)
      ensures |t| == 1
    {
      if this == X then "X" else "O"
    }
  }

  lemma OtherInvolution(s: Symbol)
    ensures s.Other().Other() == s
  {
  }

  /** The largest array length JavaScript allows is 2^32 - 1, so array indices are below it. */
  const MaxArrayLength: int := 0xFFFF_FFFF

  predicate IsArrayIndex(i: int) {
    0 <= i < MaxArrayLength
  }

  /** `a[i]`: reading outside the elements gives `undefined`, a hole. */
  function At<T>(a: seq<Slot<T>>, i: int): (r: Slot<T>)
    ensures 0 <= i < |a| ==> r == a[i]
    ensures !(0 <= i < |a|) ==> r == Hole
  {
    if 0 <= i < |a| then a[i] else Hole
  }

  /** A run of `n` holes, the gap left by a write past the end. */
  function Holes<T>(n: nat): (r: seq<Slot<T>>)
    ensures |r| == n && forall j :: 0 <= j < n ==> r[j] == Hole
  {
    seq(n, _ => Hole)
  }

  /**
   * The assignment `a[i] = v` on a JavaScript array.  Exactly the element at
   * `i` changes; an index past the end grows the array, filling the gap with
   * holes; anything else only adds a property that no element sees.
   */
  function Assign<T>(a: seq<Slot<T>>, i: int, v: T): (r: seq<Slot<T>>)
    ensures IsArrayIndex(i) ==> |r| == if i < |a| then |a| else i + 1
    ensures IsArrayIndex(i) ==> r[i] == Val(v)
    ensures IsArrayIndex(i) ==> forall j :: 0 <= j < |a| && j != i ==> r[j] == a[j]
    ensures IsArrayIndex(i) ==> forall j :: |a| <= j < |r| && j != i ==> r[j] == Hole
    ensures !IsArrayIndex(i) ==> r == a
  {
    if !IsArrayIndex(i) then a
    else if i < |a| then a[i := Val(v)]
    else a + Holes(i - |a|) + [Val(v)]
  }

  /** `Array(n).fill(null)`. */
  function Nulls<T>(n: nat): (r: seq<Slot<T>>)
    ensures |r| == n && forall j :: 0 <= j < n ==> r[j] == Null
  {
    seq(n, _ => Null)
  }

  /**
   * `a.includes(null)`: holes read as `undefined`, which is not `null`.  Its
   * negation is also `a.every(cell => cell !== null)`, since `every` skips holes.
   */
  function IncludesNull<T>(a: seq<Slot<T>>): (b: bool)
    ensures b <==> Null in a
    ensures !b <==> forall j :: 0 <= j < |a| ==> a[j] != Null
  {
    exists j :: 0 <= j < |a| && a[j] == Null
  }
}
