/** A connection list as a value: its entries from the head on, and whether the tail pointer
    still leads to the last of them. */
module PortLists {
  datatype List<E> = List(chain: seq<E>, tailOk: bool)

  function Empty<E>(): List<E> { List([], true) }

  /** The index of the first matching entry, or the length if there is none. */
  function FirstMatch<E>(chain: seq<E>, matches: E -> bool): (i: nat)
    ensures i <= |chain|
    ensures forall j :: 0 <= j < i ==> !matches(chain[j])
    ensures i < |chain| ==> matches(chain[i])
  {
    if chain == [] then 0 else if matches(chain[0]) then 0 else 1 + FirstMatch(chain[1..], matches)
  }

  predicate Present<E>(l: List<E>, matches: E -> bool) { FirstMatch(l.chain, matches) < |l.chain| }

  /** `add_port_sk`: an entry hung on a stale tail is not reachable from the head. */
  function Added<E>(l: List<E>, e: E): List<E> {
    if l.tailOk then l.(chain := l.chain + [e]) else l
  }

  function Without<E>(chain: seq<E>, i: nat): seq<E>
    requires i < |chain|
  {
    chain[..i] + chain[i + 1..]
  }

  /** Taking entry i out: the tail pointer is reset when the list becomes empty, and left behind when
      the last entry goes while others remain. */
  function TakenOut<E>(l: List<E>, i: nat): List<E>
    requires i < |l.chain|
  {
    List(Without(l.chain, i), |l.chain| == 1 || (l.tailOk && (i == 0 || i + 1 < |l.chain|)))
  }

  /** `remove_port_sk` follows a NULL pointer: the match is the last of several entries, and the tail
      pointer does not lead to it. */
  predicate RemoveCrashes<E>(l: List<E>, matches: E -> bool) {
    var i := FirstMatch(l.chain, matches);
    0 < i && i + 1 == |l.chain| && !l.tailOk
  }

  function Removed<E>(l: List<E>, matches: E -> bool): List<E> {
    if Present(l, matches) then TakenOut(l, FirstMatch(l.chain, matches)) else l
  }

  /** After a removal from an orderly list the next entry is appended, unless the last of several
      entries was removed: then it is lost to the list. */
  lemma AppendedAfterRemoveIff<E>(l: List<E>, i: nat, e: E)
    requires l.tailOk && i < |l.chain|
    ensures Added(TakenOut(l, i), e).chain == Without(l.chain, i) + [e] <==> !(0 < i && i + 1 == |l.chain|)
  {
    assert |Without(l.chain, i) + [e]| != |Without(l.chain, i)|;
  }

  /** An entry just added is the one found, unless one like it was there or the tail was stale. */
  lemma FoundAfterAdd<E>(l: List<E>, e: E, matches: E -> bool)
    requires matches(e)
    ensures var l' := Added(l, e);
            var i := FirstMatch(l'.chain, matches);
            Present(l', matches) && l'.chain[i] == e && i == |l.chain| <==> l.tailOk && !Present(l, matches)
  {
    if l.tailOk {
      FirstMatchAppend(l.chain, e, matches);
    }
  }

  lemma {:induction false} FirstMatchAppend<E>(chain: seq<E>, e: E, matches: E -> bool)
    ensures FirstMatch(chain, matches) < |chain| ==> FirstMatch(chain + [e], matches) == FirstMatch(chain, matches)
    ensures FirstMatch(chain, matches) == |chain| ==>
              FirstMatch(chain + [e], matches) == if matches(e) then |chain| else |chain| + 1
  {
    if chain == [] {
      assert chain + [e] == [e];
    } else {
      FirstMatchAppend(chain[1..], e, matches);
      assert (chain + [e])[1..] == chain[1..] + [e];
    }
  }
}
