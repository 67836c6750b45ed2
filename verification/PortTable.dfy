/** The per-port connection lists: doubly linked nodes with head and tail pointers. */
module PortTable {
  import opened PortLists

  class PortSk {
    const sk: nat
    const rport: nat
    const rip: nat
    var next: PortSk?
    var previous: PortSk?

    constructor (sk: nat, rport: nat, rip: nat)
      ensures this.sk == sk && this.rport == rport && this.rip == rip
    {
      this.sk, this.rport, this.rip := sk, rport, rip;
      next, previous := null, null;
    }
  }

  function Key(rport: nat, rip: nat): PortSk -> bool {
    (psk: PortSk) => psk.rport == rport && psk.rip == rip
  }

  /** The node at position i of a chain, or NULL beyond its ends. */
  function NodeAt(chain: seq<PortSk>, i: int): PortSk? {
    if 0 <= i < |chain| then chain[i] else null
  }

  lemma WithoutFirst(chain: seq<PortSk>)
    requires chain != []
    ensures Without(chain, 0) == chain[1..]
  {
  }

  lemma LastWithout(chain: seq<PortSk>, i: nat)
    requires i < |chain| - 1
    ensures NodeAt(Without(chain, i), |chain| - 2) == NodeAt(chain, |chain| - 1)
    ensures forall x :: x in Without(chain, i) ==> x in chain
  {
  }

  datatype RemoveResult = NotFound | Found(psk: PortSk) | NullDereference

  class PortSkArr {
    var head: PortSk?
    var tail: PortSk?
    ghost var chain: seq<PortSk>   // the nodes reachable from the head, in order

    ghost predicate Linked()
      reads `head, `chain, chain`next, chain`previous
    {
      LinkedAs(chain)
    }

    ghost predicate LinkedAs(chain: seq<PortSk>)
      reads `head, chain`next, chain`previous
    {
      && (forall i, j :: 0 <= i < j < |chain| ==> chain[i] != chain[j])
      && head == NodeAt(chain, 0)
      && (forall i {:trigger chain[i].next} :: 0 <= i < |chain| ==> chain[i].next == NodeAt(chain, i + 1))
      && (forall i {:trigger chain[i].previous} :: 0 <= i < |chain| ==> chain[i].previous == NodeAt(chain, i - 1))
    }

    ghost predicate TailOk()
      reads `tail, `chain
    {
      tail == NodeAt(chain, |chain| - 1)
    }

    ghost predicate NotOn(psk: PortSk?)
      reads `chain
    {
      forall i :: 0 <= i < |chain| ==> chain[i] != psk
    }

    /** The links are right in both directions; the tail pointer is right, or stale: it leads to a
        node that is no longer on the list. */
    ghost predicate Valid()
      reads this, chain
    {
      Linked() && (TailOk() || (chain != [] && tail != null && NotOn(tail)))
    }

    ghost function View(): List<PortSk>
      reads this
    {
      List(chain, TailOk())
    }

    constructor ()
      ensures Valid() && View() == Empty()
    {
      head, tail, chain := null, null, [];
    }

    /** The chain is linked but for its last node, whose successor is `psk`. */
    lemma LinkedAppend(psk: PortSk)
      requires chain != [] && NotOn(psk)
      requires forall i, j :: 0 <= i < j < |chain| ==> chain[i] != chain[j]
      requires head == NodeAt(chain, 0)
      requires forall i {:trigger chain[i].next} :: 0 <= i < |chain| ==> chain[i].next == NodeAt(chain + [psk], i + 1)
      requires forall i {:trigger chain[i].previous} :: 0 <= i < |chain| ==> chain[i].previous == NodeAt(chain, i - 1)
      requires psk.next == null && psk.previous == chain[|chain| - 1]
      ensures LinkedAs(chain + [psk])
    {
      var c := chain + [psk];
      forall i | 0 <= i < |c|
        ensures c[i].next == NodeAt(c, i + 1) && c[i].previous == NodeAt(c, i - 1)
      {
        if i < |chain| { assert c[i] == chain[i]; }
      }
    }

    method AddPortSk(psk: PortSk?)
      requires Valid()
      requires psk != null ==> NotOn(psk) && psk != tail
      modifies this, psk, tail
      ensures Valid()
      ensures View() == if psk == null then old(View()) else Added(old(View()), psk)
      ensures psk != null ==> tail == psk && psk.previous == old(tail)
      ensures psk != null && old(tail) != null ==> old(tail).next == psk
    {
      if psk == null {
        return;
      }
      psk.next := null;
      assert Linked();
      var currentTail := tail;
      if currentTail != null {
        psk.previous := currentTail;
        assert Linked();
        currentTail.next := psk;
        if old(TailOk()) {
          LinkedAppend(psk);
          chain := chain + [psk];
        } else {
          assert Linked();
        }
      } else {
        psk.previous := null;
        head := psk;
        chain := [psk];
      }
      tail := psk;
    }

    method PutPortSk() returns (psk: PortSk?)
      requires Valid()
      modifies this, chain
      ensures Valid()
      ensures psk == NodeAt(old(chain), 0)
      ensures View() == if psk == null then old(View()) else TakenOut(old(View()), 0)
      ensures |old(chain)| > 1 ==> tail == old(tail)
    {
      if head == null {
        return null;
      }
      psk := head;
      ghost var c := chain;
      WithoutFirst(c);
      if head.next != null {
        head := head.next;
        head.previous := null;
        chain := c[1..];
        assert Linked();
        assert TailOk() <==> old(TailOk());
      } else {
        head := null;
        tail := null;
        chain := [];
        assert c[1..] == [];
      }
    }

    method GetPortSk(rport: nat, rip: nat) returns (psk: PortSk?)
      requires Valid()
      ensures psk != null <==> Present(View(), Key(rport, rip))
      ensures psk != null ==> psk == chain[FirstMatch(chain, Key(rport, rip))]
    {
      hide FirstMatch;
      psk := head;
      ghost var i := 0;
      while psk != null
        invariant 0 <= i <= |chain| && psk == NodeAt(chain, i)
        invariant forall j :: 0 <= j < i ==> !Key(rport, rip)(chain[j])
        decreases |chain| - i
      {
        if psk.rport == rport && psk.rip == rip {
          return;
        }
        psk := psk.next;
        i := i + 1;
      }
    }

    /** The nodes other than node i are linked to one another. */
    lemma LinkedWithout(i: nat)
      requires 0 < i < |chain| - 1 && head == chain[0]
      requires forall j, k :: 0 <= j < k < |chain| ==> chain[j] != chain[k]
      requires forall j {:trigger chain[j].next} :: 0 <= j < |chain| && j != i ==>
                 chain[j].next == NodeAt(chain, if j == i - 1 then i + 1 else j + 1)
      requires forall j {:trigger chain[j].previous} :: 0 <= j < |chain| && j != i ==>
                 chain[j].previous == NodeAt(chain, if j == i + 1 then i - 1 else j - 1)
      ensures LinkedAs(Without(chain, i))
    {
      var c := Without(chain, i);
      assert forall j :: 0 <= j < |c| ==> c[j] == chain[if j < i then j else j + 1];
      forall j | 0 <= j < |c|
        ensures c[j].next == NodeAt(c, j + 1) && c[j].previous == NodeAt(c, j - 1)
      {
      }
    }

    /** The tail pointer is left behind. */
    method UnlinkTail(current: PortSk)
      requires Valid() && |chain| > 1 && current == chain[|chain| - 1] == tail
      modifies `chain, chain
      ensures Valid() && View() == TakenOut(old(View()), |old(chain)| - 1)
    {
      ghost var last := |chain| - 1;
      current.previous.next := null;
      chain := chain[..last];
      assert chain == Without(old(chain), last);
    }

    /** Neither head nor tail: false if the node has no successor, whose NULL pointer is followed. */
    method UnlinkMiddle(current: PortSk, ghost i: nat) returns (ok: bool)
      requires Valid() && 0 < i < |chain| && current == chain[i]
      modifies `chain, chain
      ensures ok <==> i + 1 < |old(chain)|
      ensures ok ==> Valid() && View() == TakenOut(old(View()), i)
    {
      ghost var c := chain;
      current.previous.next := current.next;
      if current.next == null {
        return false;
      }
      current.next.previous := current.previous;
      LinkedWithout(i);
      chain := Without(c, i);
      LastWithout(c, i);
      return true;
    }

    /** The first matching node is taken out; a NULL pointer is followed when the match is the last
        of several nodes and the tail pointer is stale. */
    method RemovePortSk(rport: nat, rip: nat) returns (res: RemoveResult)
      requires Valid()
      modifies this, chain
      ensures res == NullDereference <==> RemoveCrashes(old(View()), Key(rport, rip))
      ensures res != NullDereference ==> Valid() && View() == Removed(old(View()), Key(rport, rip))
      ensures res.Found? <==> Present(old(View()), Key(rport, rip)) && res != NullDereference
      ensures res.Found? ==> res.psk == old(chain)[FirstMatch(old(chain), Key(rport, rip))]
      ensures |old(chain)| > 1 ==> tail == old(tail)
    {
      hide FirstMatch;
      var currentPsk := head;
      ghost var i := 0;
      while currentPsk != null
        invariant Valid() && View() == old(View()) && chain == old(chain)
        invariant 0 <= i <= |chain| && currentPsk == NodeAt(chain, i)
        invariant forall j :: 0 <= j < i ==> !Key(rport, rip)(chain[j])
        decreases |chain| - i
      {
        if currentPsk.rport == rport && currentPsk.rip == rip {
          assert FirstMatch(chain, Key(rport, rip)) == i;
          if currentPsk == head {
            var _ := PutPortSk();   // the same three assignments as taking the head
          } else if currentPsk == tail {
            UnlinkTail(currentPsk);
          } else {
            var ok := UnlinkMiddle(currentPsk, i);
            if !ok {
              return NullDereference;
            }
          }
          return Found(currentPsk);
        }
        currentPsk := currentPsk.next;
        i := i + 1;
      }
      return NotFound;
    }
  }

  /** Removing the last of two nodes leaves the tail pointer on the removed node. */
  method LeaveTailBehind(a: PortSk, b: PortSk) returns (incoming: PortSkArr)
    requires a != b && !Key(b.rport, b.rip)(a)
    modifies a, b
    ensures fresh(incoming) && incoming.Valid() && incoming.chain == [a] && incoming.tail == b
  {
    incoming := new PortSkArr();
    incoming.AddPortSk(a);
    incoming.AddPortSk(b);
    assert incoming.chain == [a, b];
    MatchIsSecond(a, b);
    hide FirstMatch;
    var _ := incoming.RemovePortSk(b.rport, b.rip);
    assert incoming.chain == [a];
  }

  lemma MatchIsSecond(a: PortSk, b: PortSk)
    requires !Key(b.rport, b.rip)(a)
    ensures FirstMatch([a, b], Key(b.rport, b.rip)) == 1
  {
  }

  /** What a stale tail leads to. Node b, the last of two, is moved from one table to the other; the
      next node added to the first table then hangs on b, and is reachable from the second table
      although it was never put there. */
  method StaleTailJoinsTables(a: PortSk, b: PortSk, c: PortSk) returns (incoming: PortSkArr, conns: PortSkArr)
    requires a != b && b != c && a != c && !Key(b.rport, b.rip)(a)
    modifies a, b, c
    ensures incoming.Valid() && incoming.chain == [a]
    ensures conns.head == b && b.next == c
  {
    incoming := LeaveTailBehind(a, b);
    conns := new PortSkArr();
    conns.AddPortSk(b);
    incoming.AddPortSk(c);
  }
}
