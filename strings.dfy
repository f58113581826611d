/**
 The few standard-library string operations the target model relies on:
 `Ord for str` (lexicographic comparison), `str::find` with a slice of
 characters as the pattern, and `[&str]::join`.
 Strings are sequences of Unicode scalar values; an index is a character
 index rather than a UTF-8 byte offset.
 */
module Strings {

  import opened Wrappers

  /** `std::cmp::Ordering`. */
  datatype Ordering = Less | Equal | Greater {
    /** `Ordering::reverse`: the answer of the comparison with its operands swapped. */
    function Reverse(): Ordering {
      match this
      case Less => Greater
      case Equal => Equal
      case Greater => Less
    }
  }

  /**
   Lexicographic comparison of two strings, character by character; a proper
   prefix is smaller. It answers `Equal` exactly for identical strings.
   */
  function Cmp(a: string, b: string): (r: Ordering)
    ensures r == Equal <==> a == b
  {
    if a == [] && b == [] then Equal
    else if a == [] then Less
    else if b == [] then Greater
    else if a[0] < b[0] then Less
    else if b[0] < a[0] then Greater
    else
      assert a == [a[0]] + a[1..] && b == [b[0]] + b[1..];
      Cmp(a[1..], b[1..])
  }

  /** Swapping the operands reverses the answer. */
  lemma {:induction false} CmpAntisymmetric(a: string, b: string)
    ensures Cmp(b, a) == Cmp(a, b).Reverse()
  {
    if a != [] && b != [] && a[0] == b[0] {
      CmpAntisymmetric(a[1..], b[1..]);
    }
  }

  /** `Less` is transitive. */
  lemma {:induction false} CmpTransitive(a: string, b: string, c: string)
    requires Cmp(a, b) == Less && Cmp(b, c) == Less
    ensures Cmp(a, c) == Less
  {
    if a != [] && b != [] && c != [] && a[0] == b[0] && b[0] == c[0] {
      CmpTransitive(a[1..], b[1..], c[1..]);
    }
  }

  /** Some character of `s` belongs to `chars`. */
  predicate ContainsAny(s: string, chars: seq<char>) {
    exists k :: 0 <= k < |s| && s[k] in chars
  }

  /** Every character of `s` belongs to `chars`. */
  predicate AllIn(s: string, chars: seq<char>) {
    forall k :: 0 <= k < |s| ==> s[k] in chars
  }

  /**
   `str::find` with a character-slice pattern: the index of the first
   character of `s` that belongs to `chars`, if there is one.
   */
  function FindAny(s: string, chars: seq<char>): (r: Option<nat>)
    ensures r.Some? ==> r.value < |s| && s[r.value] in chars
    ensures r.Some? ==> forall k :: 0 <= k < r.value ==> s[k] !in chars
    ensures r.None? <==> !ContainsAny(s, chars)
  {
    if s == [] then None
    else if s[0] in chars then Some(0)
    else match FindAny(s[1..], chars)
      case None => None
      case Some(i) => Some(i + 1)
  }

  /** Sum of the lengths of the strings in `items`. */
  function TotalLength(items: seq<string>): nat {
    if items == [] then 0 else |items[0]| + TotalLength(items[1..])
  }

  /**
   `[&str]::join(sep)`: the items with `sep` between each neighbouring pair,
   so the text starts with the first item.
   */
  function Join(sep: string, items: seq<string>): (r: string)
    ensures items != [] ==> items[0] <= r
  {
    if items == [] then ""
    else if |items| == 1 then items[0]
    else items[0] + sep + Join(sep, items[1..])
  }

  /** The joined text holds every item and one separator per neighbouring pair, nothing more. */
  lemma {:induction false} JoinLength(sep: string, items: seq<string>)
    requires items != []
    ensures |Join(sep, items)| == TotalLength(items) + (|items| - 1) * |sep|
  {
    if |items| > 1 {
      var k := |items| - 2;
      JoinLength(sep, items[1..]);
      assert (k + 1) * |sep| == k * |sep| + |sep|;
    }
  }
}
