/** The doubly linked instruction list of ILRewriter and the insertions made into it. */
module InstrList {
  import opened Opcodes
  import opened Layout

  /** The opcode of the list's sentinel: minus one, unsigned. */
  const SENTINEL: nat := 0xFFFF_FFFF

  class ILInstr {
    var next: ILInstr?
    var prev: ILInstr?
    var op: nat
    var offset: nat
    /** The operand, or for branches the node they lead to. */
    var arg: int
    var target: ILInstr?

    constructor ()
      ensures next == null && prev == null && op == 0 && offset == 0 && arg == 0 && target == null
    {
      next, prev, op, offset, arg, target := null, null, 0, 0, 0, null;
    }
  }

  /** Node k of a list; both the place in front of it and the one behind it belong to the sentinel. */
  function At(il: ILInstr, nodes: seq<ILInstr>, k: int): ILInstr {
    if 0 <= k < |nodes| then nodes[k] else il
  }

  ghost predicate LinkedAt(il: ILInstr, nodes: seq<ILInstr>, k: nat)
    reads il`next, il`prev, nodes`next, nodes`prev
  {
    At(il, nodes, k).prev == At(il, nodes, k - 1) && At(il, nodes, k - 1).next == At(il, nodes, k)
  }

  ghost predicate Distinct(s: seq<ILInstr>) {
    forall i, j :: 0 <= i < j < |s| ==> s[i] != s[j]
  }

  /** s with xs put in front of position k. */
  function Inserted<T>(s: seq<T>, k: nat, xs: seq<T>): (r: seq<T>)
    requires k <= |s|
    ensures |r| == |s| + |xs|
  {
    s[..k] + xs + s[k..]
  }

  lemma {:induction false} InsertedMore<T>(s: seq<T>, k: nat, xs: seq<T>, ys: seq<T>)
    requires k <= |s|
    ensures Inserted(Inserted(s, k, xs), k + |xs|, ys) == Inserted(s, k, xs + ys)
  {
    var t := Inserted(s, k, xs);
    assert t[..k + |xs|] == s[..k] + xs;
    assert t[k + |xs|..] == s[k..];
  }

  lemma {:induction false} InsertedAt<T>(s: seq<T>, k: nat, xs: seq<T>)
    requires k <= |s|
    ensures forall j :: 0 <= j < |s| ==> Inserted(s, k, xs)[if j < k then j else j + |xs|] == s[j]
    ensures forall j :: 0 <= j < |xs| ==> Inserted(s, k, xs)[k + j] == xs[j]
  {
  }

  /** An exception clause over nodes; handlerEnd is the handler's last node. */
  datatype EHClause = EHClause(flags: int, tryBegin: ILInstr, tryEnd: ILInstr, handlerBegin: ILInstr, handlerEnd: ILInstr,
                               isFilter: bool, filter: ILInstr?, token: int)

  class ILRewriter {
    const il: ILInstr
    ghost var nodes: seq<ILInstr>
    var maxStack: nat
    var nInstrs: nat
    var eh: seq<EHClause>

    ghost predicate Valid()
      reads this`nodes, il`next, il`prev, nodes`next, nodes`prev
    {
      && il !in nodes && Distinct(nodes)
      && (forall k :: 0 <= k <= |nodes| ==> LinkedAt(il, nodes, k))
    }

    constructor (stack: nat)
      ensures Valid() && nodes == [] && maxStack == stack && nInstrs == 0 && eh == [] && fresh(il) && il.op == SENTINEL
    {
      var s := new ILInstr();
      s.next, s.prev, s.op := s, s, SENTINEL;
      il, nodes, maxStack, nInstrs, eh := s, [], stack, 0, [];
    }

    method NewILInstr() returns (n: ILInstr)
      modifies this`nInstrs
      ensures fresh(n) && n.op == 0 && n.arg == 0 && n.target == null && n.offset == 0
      ensures nInstrs == old(nInstrs) + 1
    {
      nInstrs := nInstrs + 1;
      n := new ILInstr();
    }

    method AdjustState(n: ILInstr)
      modifies this`maxStack
      ensures maxStack == old(maxStack) + Pushes(n.op)
    {
      maxStack := maxStack + Pushes(n.op);
    }

    /** Inserting in front of node k puts the new node, and only it, between
        node k and what was in front of it. */
    method InsertBefore(where: ILInstr, what: ILInstr, ghost k: nat)
      requires Valid() && k <= |nodes| && where == At(il, nodes, k)
      requires what != il && what !in nodes
      modifies this`nodes, this`maxStack, what`next, what`prev
      modifies At(il, nodes, k)`prev, At(il, nodes, k - 1)`next
      ensures Valid() && nodes == Inserted(old(nodes), k, [what])
      ensures maxStack == old(maxStack) + Pushes(what.op)
    {
      assert LinkedAt(il, nodes, k);
      what.next := where;
      what.prev := where.prev;
      what.next.prev := what;
      what.prev.next := what;
      nodes := Inserted(nodes, k, [what]);
      AdjustState(what);
      forall j | 0 <= j <= |nodes| ensures LinkedAt(il, nodes, j) {
        if j < k {
          assert old(LinkedAt(il, nodes, j));
        } else if j > k + 1 {
          assert old(LinkedAt(il, nodes, j - 1));
        }
      }
    }

    method InsertAfter(where: ILInstr, what: ILInstr, ghost k: nat)
      requires Valid() && k < |nodes| && where == nodes[k]
      requires what != il && what !in nodes
      modifies this`nodes, this`maxStack, what`next, what`prev
      modifies At(il, nodes, k + 1)`prev, At(il, nodes, k)`next
      ensures Valid() && nodes == Inserted(old(nodes), k + 1, [what])
      ensures maxStack == old(maxStack) + Pushes(what.op)
    {
      assert LinkedAt(il, nodes, k + 1);
      what.next := where.next;
      what.prev := where;
      what.next.prev := what;
      what.prev.next := what;
      nodes := Inserted(nodes, k + 1, [what]);
      AdjustState(what);
      forall j | 0 <= j <= |nodes| ensures LinkedAt(il, nodes, j) {
        if j < k + 1 {
          assert old(LinkedAt(il, nodes, j));
        } else if j > k + 2 {
          assert old(LinkedAt(il, nodes, j - 1));
        }
      }
    }
  }
}
