/** std::find and std::search for CR LF, over byte strings. */
module ByteSearch {
  import opened Wrappers
  import opened BigEndian

  const CR: Byte := 13
  const LF: Byte := 10

  predicate CrlfAt(s: seq<Byte>, k: nat) {
    k + 1 < |s| && s[k] == CR && s[k + 1] == LF
  }

  /** The first position of CR LF at or after i. */
  function CrlfFrom(s: seq<Byte>, i: nat): (r: Option<nat>)
    requires i <= |s|
    ensures r.Some? ==> i <= r.value && CrlfAt(s, r.value) && forall k :: i <= k < r.value ==> !CrlfAt(s, k)
    ensures r.None? ==> forall k :: i <= k ==> !CrlfAt(s, k)
    decreases |s| - i
  {
    if i + 1 >= |s| then None
    else if CrlfAt(s, i) then Some(i)
    else CrlfFrom(s, i + 1)
  }

  function FindCrlf(s: seq<Byte>): Option<nat> { CrlfFrom(s, 0) }

  /** The first position of b at or after i, or the length when there is none. */
  function FindFrom(s: seq<Byte>, b: Byte, i: nat): (r: nat)
    requires i <= |s|
    ensures i <= r <= |s|
    ensures r < |s| ==> s[r] == b
    ensures forall k :: i <= k < r ==> s[k] != b
    decreases |s| - i
  {
    if i == |s| || s[i] == b then i else FindFrom(s, b, i + 1)
  }

  function Find(s: seq<Byte>, b: Byte): nat { FindFrom(s, b, 0) }

  /** The search result is settled by any prefix that already contains a CR LF. */
  lemma CrlfInExtension(s: seq<Byte>, more: seq<Byte>)
    requires FindCrlf(s).Some?
    ensures FindCrlf(s + more) == FindCrlf(s)
  {
    var k := FindCrlf(s).value;
    assert CrlfAt(s + more, k);
    var r := FindCrlf(s + more).value;
    assert r < k ==> CrlfAt(s, r);
  }
}
