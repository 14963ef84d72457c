/** The pipeline of stream_api.cpp: a chain of reference-counted nodes, edited through pointers to
    pointers. A `Link` is a variable that holds a node pointer: the head of a pipeline, the source
    of a node, or a caller's own. */
module Pipeline {
  import opened Media

  class Link {
    var node: Node?

    constructor ()
      ensures node == null
    {
      node := null;
    }
  }

  class Node {
    const name: Option<string>
    const source: Link
    var refcount: int
    var destroyed: bool

    constructor (name: Option<string>)
      ensures this.name == name && refcount == 0 && !destroyed
      ensures fresh(source) && source.node == null
    {
      this.name := name;
      refcount, destroyed := 0, false;
      source := new Link();
    }
  }

  // ----- The chain -----

  ghost function Sources(ns: seq<Node>): set<Link> {
    set n | n in ns :: n.source
  }

  /** The links lead from `head` through `ns` and no further; no node and no link occurs twice. */
  ghost predicate Chain(head: Link, ns: seq<Node>)
    reads head, Sources(ns)
    decreases |ns|
  {
    if ns == [] then head.node == null else
    var n, tail := ns[0], ns[1..];
    && head.node == n
    && n !in tail && head != n.source && head !in Sources(tail)
    && Tails(ns) && Chain(n.source, tail)
  }

  /** The links of a chain are its first node's and those of its tail. */
  ghost predicate Tails(ns: seq<Node>)
    ensures Tails(ns)
    ensures ns != [] ==> Sources(ns) == {ns[0].source} + Sources(ns[1..])
  {
    assert ns != [] ==> ns == [ns[0]] + ns[1..];
    true
  }

  /** The index of the node a name leads to: without a name, the first node that has one. */
  function Position(names: seq<Option<string>>, wanted: Option<string>): (k: Option<nat>)
    ensures k.Some? ==> k.value < |names|
  {
    if names == [] then None
    else if names[0].Some? && (wanted.None? || names[0] == wanted) then Some(0)
    else
      var k :- Position(names[1..], wanted);
      Some(k + 1)
  }

  function Names(ns: seq<Node>): (r: seq<Option<string>>)
    ensures |r| == |ns|
  {
    if ns == [] then [] else [ns[0].name] + Names(ns[1..])
  }

  // ----- Reference counting -----

  method Ref(n: Node?)
    modifies if n != null then {n} else {}
    ensures n != null ==> n.refcount == old(n.refcount) + 1 && n.destroyed == old(n.destroyed)
  {
    if n != null {
      n.refcount := n.refcount + 1;
    }
  }

  /** Releases what a link holds. A node that loses its last reference is destroyed; the recursive
      teardown of a node that still has a source at that point is not modelled. */
  method Unref(link: Link)
    requires link.node != null ==> link.node.refcount > 1 || link.node.source.node == null
    modifies link, if link.node != null then {link.node} else {}
    ensures link.node == null
    ensures old(link.node) != null ==> old(link.node).refcount == old(link.node.refcount) - 1
    ensures var n := old(link.node); n != null ==> n.destroyed == (old(n.destroyed) || n.refcount <= 0)
  {
    if link.node != null {
      link.node.refcount := link.node.refcount - 1;
      if link.node.refcount <= 0 {
        link.node.destroyed := true;
      }
      link.node := null;
    }
  }

  // ----- Editing the chain -----

  ghost function Spliced(ns: seq<Node>, k: nat, x: Node): seq<Node>
    requires k <= |ns|
  {
    ns[..k] + [x] + ns[k..]
  }

  ghost function Without(ns: seq<Node>, k: nat): seq<Node>
    requires k < |ns|
  {
    ns[..k] + ns[k+1..]
  }

  lemma InTail(ns: seq<Node>)
    requires ns != []
    ensures forall n | n in ns[1..] :: n in ns
    ensures forall n | n in ns :: n == ns[0] || n in ns[1..]
    ensures Sources(ns[1..]) <= Sources(ns) && ns[0].source in Sources(ns)
  {
    assert ns == [ns[0]] + ns[1..];
  }

  lemma SourcesCons(n: Node, ns: seq<Node>)
    ensures Sources([n] + ns) == {n.source} + Sources(ns)
  {
    assert forall m :: m in [n] + ns <==> m == n || m in ns;
  }

  lemma ChainFirst(head: Link, ns: seq<Node>)
    requires Chain(head, ns) && ns != []
    ensures head.node == ns[0] && Chain(ns[0].source, ns[1..])
    ensures ns[0] !in ns[1..] && head != ns[0].source && head !in Sources(ns)
    ensures ns[0] in ns && forall n | n in ns[1..] :: n in ns
    ensures Sources(ns[1..]) <= Sources(ns) && ns[0].source in Sources(ns)
    ensures ns[0].source.node == null <==> ns[1..] == []
    ensures ns[0].source !in Sources(ns[1..])
  {
    InTail(ns);
    if ns[1..] != [] {
      InTail(ns[1..]);
      assert Chain(ns[0].source, ns[1..]);
    }
  }

  lemma ConsChain(head: Link, n: Node, rest: seq<Node>)
    requires head.node == n && Chain(n.source, rest)
    requires n !in rest && head != n.source && head !in Sources(rest)
    ensures Chain(head, [n] + rest)
  {
    assert ([n] + rest)[1..] == rest;
    assert Tails([n] + rest);
  }

  lemma SplicedTail(ns: seq<Node>, k: nat, x: Node)
    requires ns != [] && k < |ns|
    ensures Spliced(ns, k + 1, x) == [ns[0]] + Spliced(ns[1..], k, x)
    ensures forall n :: n in Spliced(ns[1..], k, x) <==> n in ns[1..] || n == x
    ensures Sources(Spliced(ns[1..], k, x)) == Sources(ns[1..]) + {x.source}
  {
    var t := ns[1..];
    assert t == t[..k] + t[k..];
    assert forall n :: n in Spliced(t, k, x) <==> n in t || n == x;
  }

  lemma WithoutTail(ns: seq<Node>, k: nat)
    requires k + 1 < |ns|
    ensures Without(ns, k + 1) == [ns[0]] + Without(ns[1..], k)
    ensures forall n | n in Without(ns[1..], k) :: n in ns[1..]
    ensures Sources(Without(ns[1..], k)) <= Sources(ns[1..])
  {
    var t := ns[1..];
    assert forall n | n in Without(t, k) :: n in t;
  }

  /** Makes `element` the node that `head` leads to and what was there its source. */
  method SpliceHere(head: Link, element: Node, ghost ns: seq<Node>)
    requires Chain(head, ns) && ns != [] && ns[0].refcount > 0
    requires element !in ns && element.source !in Sources(ns) + {head} && element.source.node == null
    modifies head, element, element.source, ns[0]
    ensures Chain(head, [element] + ns)
    ensures element.refcount == old(element.refcount) + 1 && element.destroyed == old(element.destroyed)
    ensures ns[0].refcount == old(ns[0].refcount) && ns[0].destroyed == old(ns[0].destroyed)
  {
    var def := head.node;
    InTail(ns);
    Ref(def);
    element.source.node := def;
    Ref(element);
    Unref(head);
    head.node := element;
    assert Chain(element.source, ns) by {
      assert element.source !in Sources(ns[1..]);
    }
    ConsChain(head, element, ns);
  }

  /** The outcome of an insertion: spliced in at k, or nothing changed. */
  ghost predicate Inserted(head: Link, ns: seq<Node>, element: Node, k: Option<nat>)
    reads head, Sources(ns), element.source
  {
    if k.Some? then k.value <= |ns| && ChainOf(head, Spliced(ns, k.value, element), ns, element)
    else Chain(head, ns) && element.source.node == null
  }

  /** A chain all of whose nodes are known. */
  ghost predicate ChainOf(head: Link, chain: seq<Node>, ns: seq<Node>, element: Node)
    reads head, Sources(ns), element.source
  {
    Sources(chain) <= Sources(ns) + {element.source} && Chain(head, chain)
  }

  lemma InsertedUpstream(head: Link, ns: seq<Node>, element: Node, k: Option<nat>)
    requires ns != [] && head.node == ns[0] && Inserted(ns[0].source, ns[1..], element, k)
    requires ns[0] !in ns[1..] && head != ns[0].source && head !in Sources(ns[1..]) + {element.source}
    requires element != ns[0] && (k.Some? ==> k.value < |ns|)
    ensures Inserted(head, ns, element, if k.Some? then Some(k.value + 1) else None)
  {
    hide Spliced, Chain, Sources;
    InTail(ns);
    assert ns == [ns[0]] + ns[1..];
    if k.Some? {
      SplicedTail(ns, k.value, element);
      SourcesCons(ns[0], ns[1..]);
      SourcesCons(ns[0], Spliced(ns[1..], k.value, element));
      ConsChain(head, ns[0], Spliced(ns[1..], k.value, element));
    } else {
      ConsChain(head, ns[0], ns[1..]);
      assert [ns[0]] + ns[1..] == ns;
    }
  }

  lemma InsertedHere(head: Link, ns: seq<Node>, element: Node)
    requires Chain(head, [element] + ns)
    ensures Inserted(head, ns, element, Some(0))
  {
    assert Spliced(ns, 0, element) == [element] + ns;
    assert forall n | n in [element] + ns :: n in ns || n == element;
  }

  /** Puts a node without a source in front of the one a name leads to. If it has to be opened there,
      `opens` tells how that ends; a failure decides the result but the node stays in the chain. */
  method InsertBefore(head: Link, before: Option<string>, element: Node, opens: Option<bool>, ghost ns: seq<Node>)
    returns (res: int)
    requires Chain(head, ns) && ns != []
    requires element !in ns && element.source !in Sources(ns) + {head} && element.source.node == null
    requires forall n | n in ns :: n.refcount > 0
    modifies head, element, element.source, Sources(ns), set n | n in ns :: n
    ensures Inserted(head, ns, element, Position(Names(ns), before))
    ensures var found := Position(Names(ns), before).Some?;
      && element.refcount == old(element.refcount) + (if found then 1 else 0)
      && res == if found && opens != Some(false) then 0 else -1
    ensures forall n | n in ns :: n.refcount == old(n.refcount) && n.destroyed == old(n.destroyed)
    ensures element.destroyed == old(element.destroyed)
    decreases |ns|
  {
    hide Inserted, Chain, Sources;
    var def := head.node;
    ChainFirst(head, ns);
    if def.name.Some? && (before.None? || def.name == before) {
      SpliceHere(head, element, ns);
      InsertedHere(head, ns, element);
      res := if opens == Some(false) then -1 else 0;
    } else if def.source.node != null {
      res := InsertBefore(def.source, before, element, opens, ns[1..]);
      InsertedUpstream(head, ns, element, Position(Names(ns[1..]), before));
    } else {
      NotFound(head, ns, element);
      res := -1;
    }
  }

  method InsertElement(head: Link, before: Option<string>, element: Node, opens: Option<bool>, ghost ns: seq<Node>)
    returns (res: int)
    requires Chain(head, ns) && (ns == [] ==> before.None?)
    requires element !in ns && element.source !in Sources(ns) + {head} && element.source.node == null
    requires forall n | n in ns :: n.refcount > 0
    modifies head, element, element.source, Sources(ns), set n | n in ns :: n
    ensures var k := if ns == [] then Some(0) else Position(Names(ns), before);
      && Inserted(head, ns, element, k)
      && element.refcount == old(element.refcount) + (if k.Some? then 1 else 0)
      && res == if k.Some? && (ns == [] || opens != Some(false)) then 0 else -1
    ensures forall n | n in ns :: n.refcount == old(n.refcount) && n.destroyed == old(n.destroyed)
    ensures element.destroyed == old(element.destroyed)
  {
    hide Inserted;
    if head.node == null {
      head.node := element;
      Ref(element);
      assert Chain(element.source, []);
      ConsChain(head, element, []);
      InsertedHere(head, ns, element);
      res := 0;
    } else {
      res := InsertBefore(head, before, element, opens, ns);
    }
  }

  lemma NotFound(head: Link, ns: seq<Node>, element: Node)
    requires Chain(head, ns) && element.source.node == null
    ensures Inserted(head, ns, element, None)
  {
  }

  /** Makes an empty link hold a node as well. */
  method Share(dst: Link, n: Node?)
    requires dst.node == null
    modifies dst, if n != null then {n} else {}
    ensures dst.node == n
    ensures n != null ==> n.refcount == old(n.refcount) + 1 && n.destroyed == old(n.destroyed)
  {
    Ref(n);
    dst.node := n;
  }

  ghost function Held(link: Link): set<Node>
    reads link
  {
    if link.node == null then {} else {link.node}
  }

  /** Takes the first node out of the chain and leaves it without a source. It is handed to `keep` if
      there is such a link, otherwise it is released. */
  method RemoveHere(head: Link, keep: Link?, ghost ns: seq<Node>)
    requires Chain(head, ns) && ns != [] && forall n | n in ns :: n.refcount > 0
    requires keep != null ==> keep.node == null && keep !in Sources(ns) && keep != head
    modifies head, ns[0], ns[0].source, Held(ns[0].source), if keep != null then {keep} else {}
    ensures Chain(head, ns[1..]) && ns[0].source.node == null
    ensures keep != null ==> keep.node == ns[0]
    ensures ns[0].refcount == old(ns[0].refcount) - (if keep == null then 1 else 0)
    ensures ns[0].destroyed == (old(ns[0].destroyed) || ns[0].refcount <= 0)
    ensures |ns| > 1 ==> ns[1].refcount == old(ns[1].refcount) && ns[1].destroyed == old(ns[1].destroyed)
  {
    hide Chain;
    ChainFirst(head, ns);
    var def := head.node;
    ghost var tail := ns[1..];
    ChainEnds(def.source, tail);
    var oldSource := new Link();
    Share(oldSource, def.source.node);
    ChainSwitch(def.source, oldSource, tail);
    Unref(def.source);
    if keep != null {
      Share(keep, def);
    }
    Unref(head);
    Share(head, oldSource.node);
    ChainSwitch(oldSource, head, tail);
    Unref(oldSource);
  }

  lemma ChainEnds(head: Link, ns: seq<Node>)
    requires Chain(head, ns)
    ensures head.node == if ns == [] then null else ns[0]
    ensures ns != [] ==> ns[0] in ns
  {
  }

  /** The same chain seen from another link that leads to its first node. */
  lemma ChainSwitch(from: Link, head: Link, ns: seq<Node>)
    requires Chain(from, ns) && head.node == from.node && head !in Sources(ns)
    ensures Chain(head, ns)
  {
    if ns != [] {
      InTail(ns);
    }
  }

  method RemoveElement(head: Link, name: Option<string>, keep: Link?, ghost ns: seq<Node>) returns (res: int)
    requires Chain(head, ns) && forall n | n in ns :: n.refcount > 0
    requires keep != null ==> keep.node == null && keep !in Sources(ns) && keep != head
    modifies head, Sources(ns), (set n | n in ns :: n), if keep != null then {keep} else {}
    ensures ns == [] ==> res == -1
    ensures ns != [] && name.None? ==> res == 0
    ensures ns == [] || name.None? ==> Chain(head, ns)
    ensures ns != [] && name.Some? ==> Removed(head, ns, Position(Names(ns), name), keep, res)
    ensures var k := Position(Names(ns), name);
      forall i | 0 <= i < |ns| && (name.None? || k != Some(i)) ::
        ns[i].refcount == old(ns[i].refcount) && ns[i].destroyed == old(ns[i].destroyed)
    ensures var k := Position(Names(ns), name);
      name.Some? && k.Some? ==>
        && ns[k.value].refcount == old(ns[k.value].refcount) - (if keep == null then 1 else 0)
        && ns[k.value].destroyed == (old(ns[k.value].destroyed) || ns[k.value].refcount <= 0)
    decreases |ns|
  {
    hide Sources, Removed, Chain;
    if head.node == null {
      assert ns == [] by { EmptyChain(head, ns); }
      return -1;
    }
    assert ns != [] by { EmptyChain(head, ns); }
    if name.None? {
      return 0;
    }
    var def := head.node;
    ChainFirst(head, ns);
    ChainEnds(def.source, ns[1..]);
    if def.name.Some? && def.name == name {
      RemoveHere(head, keep, ns);
      RemovedHere(head, ns, keep);
      res := 1;
    } else if def.source.node != null {
      res := RemoveElement(def.source, name, keep, ns[1..]);
      RemovedUpstream(head, ns, Position(Names(ns[1..]), name), keep, res);
    } else {
      RemovedNothing(head, ns, keep);
      res := -1;
    }
  }

  lemma EmptyChain(head: Link, ns: seq<Node>)
    requires Chain(head, ns)
    ensures ns == [] <==> head.node == null
  {
  }

  /** The outcome of a removal: the k-th node taken out, or nothing changed. */
  ghost predicate Removed(head: Link, ns: seq<Node>, k: Option<nat>, keep: Link?, res: int)
    reads head, Sources(ns), if keep != null then {keep} else {}
  {
    if k.Some? then
      && k.value < |ns| && res == 1 && (keep != null ==> keep.node == ns[k.value])
      && ns[k.value].source in Sources(ns) && ns[k.value].source.node == null
      && Sources(Without(ns, k.value)) <= Sources(ns) && Chain(head, Without(ns, k.value))
    else
      res == -1 && Chain(head, ns) && (keep != null ==> keep.node == null)
  }

  lemma RemovedHere(head: Link, ns: seq<Node>, keep: Link?)
    requires ns != [] && Chain(head, ns[1..]) && ns[0].source.node == null && (keep != null ==> keep.node == ns[0])
    ensures Removed(head, ns, Some(0), keep, 1)
  {
    InTail(ns);
    assert Without(ns, 0) == ns[1..];
  }

  lemma RemovedNothing(head: Link, ns: seq<Node>, keep: Link?)
    requires Chain(head, ns) && (keep != null ==> keep.node == null)
    ensures Removed(head, ns, None, keep, -1)
  {
  }

  lemma RemovedUpstream(head: Link, ns: seq<Node>, k: Option<nat>, keep: Link?, res: int)
    requires ns != [] && head.node == ns[0] && Removed(ns[0].source, ns[1..], k, keep, res)
    requires ns[0] !in ns[1..] && head != ns[0].source && head !in Sources(ns[1..])
    requires k.Some? ==> k.value + 1 < |ns|
    ensures Removed(head, ns, if k.Some? then Some(k.value + 1) else None, keep, res)
  {
    hide Without, Chain, Sources;
    InTail(ns);
    assert ns == [ns[0]] + ns[1..];
    SourcesCons(ns[0], ns[1..]);
    if k.Some? {
      WithoutTail(ns, k.value);
      ConsChain(head, ns[0], Without(ns[1..], k.value));
      assert ns[1..][k.value] == ns[k.value + 1];
      SourcesCons(ns[0], Without(ns[1..], k.value));
    } else {
      ConsChain(head, ns[0], ns[1..]);
    }
  }

  method FindElement(stream: Node, name: Option<string>, ghost head: Link, ghost ns: seq<Node>) returns (r: Node?)
    requires Chain(head, ns) && ns != [] && stream == ns[0]
    ensures name.None? ==> r == stream.source.node
    ensures var k := Position(Names(ns), name);
      name.Some? ==> r == if k.Some? then ns[k.value] else null
    decreases |ns|
  {
    ChainFirst(head, ns);
    hide Chain;
    if name.None? {
      return stream.source.node;
    }
    if stream.name.Some? && stream.name == name {
      return stream;
    }
    if stream.source.node != null {
      ChainEnds(stream.source, ns[1..]);
      r := FindElement(stream.source.node, name, stream.source, ns[1..]);
      return;
    }
    return null;
  }

  // ----- What a name leads to, and undoing an insertion -----

  predicate NameMatches(name: Option<string>, wanted: Option<string>) {
    name.Some? && (wanted.None? || name == wanted)
  }

  /** A name leads to the first node that matches it, and to none exactly if none does. */
  lemma {:induction false} PositionIsFirst(names: seq<Option<string>>, wanted: Option<string>)
    ensures match Position(names, wanted)
      case Some(k) => NameMatches(names[k], wanted) && forall i | 0 <= i < k :: !NameMatches(names[i], wanted)
      case None => forall i | 0 <= i < |names| :: !NameMatches(names[i], wanted)
    decreases |names|
  {
    if names != [] {
      PositionIsFirst(names[1..], wanted);
      assert forall i | 0 < i < |names| :: names[i] == names[1..][i-1];
    }
  }

  lemma {:induction false} PositionOfSpliced(ns: seq<Node>, k: nat, x: Node)
    requires k <= |ns| && x.name.Some? && x.name !in Names(ns)[..k]
    ensures Position(Names(Spliced(ns, k, x)), x.name) == Some(k)
    decreases k
  {
    if k == 0 {
      assert Spliced(ns, 0, x) == [x] + ns;
    } else {
      SplicedTail(ns, k - 1, x);
      assert Names(ns)[..k] == [ns[0].name] + Names(ns[1..])[..k-1];
      assert ([ns[0]] + Spliced(ns[1..], k - 1, x))[1..] == Spliced(ns[1..], k - 1, x);
      PositionOfSpliced(ns[1..], k - 1, x);
    }
  }

  /** As long as no node before it has the same name, removing by name undoes the insertion. */
  lemma {:induction false} RemovalUndoesInsertion(ns: seq<Node>, k: nat, x: Node)
    requires k <= |ns| && x.name.Some? && x.name !in Names(ns)[..k]
    ensures Position(Names(Spliced(ns, k, x)), x.name) == Some(k) && Without(Spliced(ns, k, x), k) == ns
  {
    hide Position, Names, Spliced, Without;
    PositionOfSpliced(ns, k, x);
    WithoutSpliced(ns, k, x);
  }

  lemma WithoutSpliced(ns: seq<Node>, k: nat, x: Node)
    requires k <= |ns|
    ensures k < |Spliced(ns, k, x)| && Without(Spliced(ns, k, x), k) == ns
  {
    var a, b := ns[..k], ns[k..];
    assert (a + [x] + b)[..k] == a;
    assert (a + [x] + b)[k+1..] == b;
    assert a + b == ns;
  }

  /** Every node is referenced by its link in the chain and by `held` others. */
  ghost predicate Counted(ns: seq<Node>, held: map<Node, nat>)
    reads set n | n in ns :: n
  {
    forall n | n in ns :: n in held && n.refcount == 1 + held[n]
  }

  lemma CountedSpliced(ns: seq<Node>, k: nat, x: Node, held: map<Node, nat>)
    requires k <= |ns| && x !in ns && x.refcount >= 1
    requires Counted(ns, held)
    ensures Counted(Spliced(ns, k, x), held[x := x.refcount - 1])
    ensures forall n | n in Spliced(ns, k, x) :: n.refcount > 0
    ensures Sources(Spliced(ns, k, x)) == Sources(ns) + {x.source}
  {
    assert ns == ns[..k] + ns[k..];
    assert forall n :: n in Spliced(ns, k, x) <==> n in ns || n == x;
  }

  lemma SplicedIndex(ns: seq<Node>, k: nat, x: Node, n: Node) returns (i: nat)
    requires k <= |ns| && n in ns
    ensures i < |ns| + 1 && i != k && Spliced(ns, k, x)[i] == n
  {
    var j :| 0 <= j < |ns| && ns[j] == n;
    i := if j < k then j else j + 1;
  }

  /** Inserting and removing again restores the chain and every reference count. */
  method InsertAndRemove(head: Link, before: Option<string>, element: Node, ghost ns: seq<Node>,
                         ghost held: map<Node, nat>)
    requires Chain(head, ns) && ns != [] && Counted(ns, held)
    requires element !in ns && element.source !in Sources(ns) + {head} && element.source.node == null
    requires element.refcount >= 0 && element.name.Some?
    requires var k := Position(Names(ns), before); k.Some? && element.name !in Names(ns)[..k.value]
    modifies head, element, element.source, Sources(ns), set n | n in ns :: n
    ensures Chain(head, ns) && Counted(ns, held)
    ensures element.source.node == null && element.refcount == old(element.refcount)
  {
    hide Position, Names, Chain, Sources, Spliced, Without;
    ghost var k := Position(Names(ns), before).value;
    ghost var after := Spliced(ns, k, element);
    var res := InsertElement(head, before, element, None, ns);
    CountedSpliced(ns, k, element, held);
    RemovalUndoesInsertion(ns, k, element);
    SplicedAt(ns, k, element);
    res := RemoveElement(head, element.name, null, after);
    forall n | n in ns ensures n.refcount == 1 + held[n] {
      var i := SplicedIndex(ns, k, element, n);
    }
  }

  lemma SplicedAt(ns: seq<Node>, k: nat, x: Node)
    requires k <= |ns|
    ensures |Spliced(ns, k, x)| == |ns| + 1 && Spliced(ns, k, x)[k] == x
    ensures forall n | n in Spliced(ns, k, x) :: n in ns || n == x
  {
  }
}
