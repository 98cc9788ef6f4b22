/** Comment-preserving edits of a YAML document: a tree of nodes that is changed in place,
    and what one edit leaves alone. */
module YamlEdit {
  import opened Wrappers

  datatype Kind = DocumentNode | SequenceNode | MappingNode | ScalarNode | AliasNode

  /** What a node holds. */
  datatype Cell = Cell(kind: Kind, tag: string, value: string, comment: string, content: seq<Node>)

  /** The contents of the nodes of a document at one moment. */
  type Store = map<Node, Cell>

  // ----- the tree at one moment -----

  ghost predicate Closed(h: Store) {
    forall n, x :: n in h && x in h[n].content ==> x in h
  }

  /** A mapping node's content alternates keys and values; an unpaired last node is no pair. */
  ghost function Pairs(h: Store, n: Node): nat
    requires n in h
  {
    |h[n].content| / 2
  }

  ghost function KeyOf(h: Store, n: Node, j: nat): string
    requires Closed(h) && n in h && j < Pairs(h, n)
  {
    h[h[n].content[2 * j]].value
  }

  ghost function ValueOf(h: Store, n: Node, j: nat): Node
    requires n in h && j < Pairs(h, n)
  {
    h[n].content[2 * j + 1]
  }

  ghost function FirstKeyFrom(h: Store, n: Node, key: string, j: nat): (r: int)
    requires Closed(h) && n in h && j <= Pairs(h, n)
    ensures r == -1 || (j <= r < Pairs(h, n) && KeyOf(h, n, r) == key)
    ensures forall p :: j <= p < (if r == -1 then Pairs(h, n) else r) ==> KeyOf(h, n, p) != key
    decreases Pairs(h, n) - j
  {
    if j == Pairs(h, n) then -1 else if KeyOf(h, n, j) == key then j else FirstKeyFrom(h, n, key, j + 1)
  }

  /** The position of the first pair with that key, or -1. */
  ghost function FirstKey(h: Store, n: Node, key: string): (r: int)
    requires Closed(h) && n in h
    ensures r == -1 || (0 <= r < Pairs(h, n) && KeyOf(h, n, r) == key)
    ensures forall p :: 0 <= p < (if r == -1 then Pairs(h, n) else r) ==> KeyOf(h, n, p) != key
  {
    FirstKeyFrom(h, n, key, 0)
  }

  ghost function Lookup(h: Store, n: Node, key: string): (r: Option<Node>)
    requires Closed(h) && n in h
    ensures r.Some? ==> r.value in h
  {
    var j := FirstKey(h, n, key);
    if j < 0 then None
    else
      assert ValueOf(h, n, j) in h[n].content;
      Some(ValueOf(h, n, j))
  }

  ghost predicate HoldsA(h: Store, n: Node, key: string, kind: Kind)
    requires Closed(h) && n in h
  {
    Lookup(h, n, key).Some? && h[Lookup(h, n, key).value].kind == kind
  }

  // ----- single edits -----

  /** `val` becomes the value of the first pair with that key, or of a new last pair whose key
      node is `k`. */
  ghost function With(h: Store, n: Node, key: string, val: Node, k: Node): Store
    requires Closed(h) && n in h
  {
    var j := FirstKey(h, n, key);
    var c := h[n].content;
    if j >= 0 then h[n := h[n].(content := c[2 * j + 1 := val])]
    else h[k := Cell(ScalarNode, "!!str", key, "", [])][n := h[n].(content := c + [k, val])]
  }

  ghost function Without(h: Store, n: Node, key: string): Store
    requires Closed(h) && n in h
  {
    var j := FirstKey(h, n, key);
    var c := h[n].content;
    if j < 0 then h else h[n := h[n].(content := c[..2 * j] + c[2 * j + 2..])]
  }

  function TagOf(kind: Kind): string {
    if kind == MappingNode then "!!map" else "!!seq"
  }

  /** The node of that kind at `key`; unless there is one, it is the new empty node `c`. */
  ghost function Made(h: Store, n: Node, key: string, kind: Kind, k: Node, c: Node): (Store, Node)
    requires Closed(h) && n in h && c !in h
  {
    if HoldsA(h, n, key, kind) then (h, Lookup(h, n, key).value)
    else (With(h[c := Cell(kind, TagOf(kind), "", "", [])], n, key, c, k), c)
  }

  // ----- the nodes -----

  ghost function Snapshot(all: set<Node>): Store
    reads all
  {
    map n | n in all :: n.Read()
  }

  class Node {
    var kind: Kind
    var tag: string
    var value: string
    var comment: string
    var content: seq<Node>

    constructor (kind: Kind, tag: string, value: string)
      ensures Read() == Cell(kind, tag, value, "", [])
    {
      this.kind, this.tag, this.value, comment, content := kind, tag, value, "", [];
    }

    /** A node of the specification only. */
    ghost constructor Spare() {
      kind, tag, value, comment, content := ScalarNode, "", "", "", [];
    }

    ghost function Read(): Cell
      reads this
    {
      Cell(kind, tag, value, comment, content)
    }

    /** The scan for `key` that the editing methods share. */
    method FindKey(key: string, ghost all: set<Node>) returns (i: int)
      requires this in all && Closed(Snapshot(all))
      ensures FirstKey(Snapshot(all), this, key) < 0 ==> i == -1
      ensures FirstKey(Snapshot(all), this, key) >= 0 ==>
        i == 2 * FirstKey(Snapshot(all), this, key) && i + 1 < |content|
    {
      ghost var h := Snapshot(all);
      i := 0;
      ghost var j := 0;
      while i + 1 < |content|
        invariant i == 2 * j && j <= Pairs(h, this)
        invariant forall p :: 0 <= p < j ==> KeyOf(h, this, p) != key
      {
        var x := content[i];
        assert h[this].content == content && x in h[this].content;
        assert x in h && x in all && h[x] == x.Read();
        assert KeyOf(h, this, j) == x.value;
        if x.value == key {
          return;
        }
        i, j := i + 2, j + 1;
      }
      i := -1;
    }

    /** `get`. */
    method Get(key: string, ghost all: set<Node>) returns (r: Option<Node>)
      requires this in all && Closed(Snapshot(all))
      ensures r == Lookup(Snapshot(all), this, key)
    {
      var i := FindKey(key, all);
      r := if i < 0 then None else Some(content[i + 1]);
    }

    /** `setNode`. A new key node is `k`. */
    method SetNode(key: string, val: Node, ghost all: set<Node>) returns (ghost k: Node)
      requires this in all && Closed(Snapshot(all))
      modifies this`content
      ensures FirstKey(old(Snapshot(all)), this, key) >= 0 ==>
        Snapshot(all) == With(old(Snapshot(all)), this, key, val, k)
      ensures FirstKey(old(Snapshot(all)), this, key) < 0 ==>
        fresh(k) && Snapshot(all + {k}) == With(old(Snapshot(all)), this, key, val, k)
    {
      hide FirstKey, Closed;
      ghost var h := Snapshot(all);
      assert h[this].content == content;
      var i := FindKey(key, all);
      if i >= 0 {
        content := content[i + 1 := val];
        assert Snapshot(all) == h[this := h[this].(content := content)];
        return this;
      }
      var keyNode := new Node(ScalarNode, "!!str", key);
      content := content + [keyNode, val];
      k := keyNode;
      assert Snapshot(all + {k}) ==
        h[k := Cell(ScalarNode, "!!str", key, "", [])][this := h[this].(content := content)];
    }

    /** `del`. */
    method Del(key: string, ghost all: set<Node>) returns (existed: bool)
      requires this in all && Closed(Snapshot(all))
      modifies this`content
      ensures existed <==> Lookup(old(Snapshot(all)), this, key).Some?
      ensures Snapshot(all) == Without(old(Snapshot(all)), this, key)
    {
      var i := FindKey(key, all);
      if i < 0 {
        return false;
      }
      content := content[..i] + content[i + 2..];
      return true;
    }

    /** A new empty node becomes the value at `key`. The nodes of the document afterwards are
        `grown`. */
    method PutNew(key: string, kind: Kind, ghost all: set<Node>)
      returns (c: Node, ghost k: Node, ghost grown: set<Node>)
      requires this in all && Closed(Snapshot(all))
      requires kind == MappingNode || kind == SequenceNode
      modifies this`content
      ensures fresh(c) && all <= grown && fresh(grown - all)
      ensures FirstKey(old(Snapshot(all)), this, key) < 0 ==> fresh(k) && k != c
      ensures c !in old(Snapshot(all))
      ensures var h := old(Snapshot(all))[c := Cell(kind, TagOf(kind), "", "", [])];
        Closed(h) && Snapshot(grown) == With(h, this, key, c, k)
    {
      hide FirstKey, With;
      ghost var h := Snapshot(all);
      c := new Node(kind, if kind == MappingNode then "!!map" else "!!seq", "");
      assert Snapshot(all + {c}) == h[c := Cell(kind, TagOf(kind), "", "", [])];
      SameKeys(h, Snapshot(all + {c}), this, key);
      k := SetNode(key, c, all + {c});
      grown := if FirstKey(h, this, key) >= 0 then all + {c} else all + {c} + {k};
    }

    /** `child` and `seq`, which differ in the kind of node they look for and make. */
    method Make(key: string, kind: Kind, ghost all: set<Node>) returns (c: Node, ghost k: Node, ghost grown: set<Node>)
      requires this in all && Closed(Snapshot(all))
      requires kind == MappingNode || kind == SequenceNode
      modifies this`content
      ensures var h := old(Snapshot(all));
        if HoldsA(h, this, key, kind) then grown == all && Snapshot(all) == h && Lookup(h, this, key) == Some(c)
        else
          && fresh(c) && all <= grown && fresh(grown - all)
          && (FirstKey(h, this, key) < 0 ==> fresh(k) && k != c)
          && (Snapshot(grown), c) == Made(h, this, key, kind, k, c)
    {
      hide FirstKey, With;
      ghost var h := Snapshot(all);
      var v := Get(key, all);
      assert v.Some? ==> h[v.value] == v.value.Read();
      if v.Some? && v.value.kind == kind {
        return v.value, this, all;
      }
      c, k, grown := PutNew(key, kind, all);
    }

    method Child(key: string, ghost all: set<Node>) returns (c: Node, ghost k: Node, ghost grown: set<Node>)
      requires this in all && Closed(Snapshot(all))
      modifies this`content
      ensures var h := old(Snapshot(all));
        if HoldsA(h, this, key, MappingNode) then grown == all && Snapshot(all) == h && Lookup(h, this, key) == Some(c)
        else
          && fresh(c) && all <= grown && fresh(grown - all)
          && (FirstKey(h, this, key) < 0 ==> fresh(k) && k != c)
          && (Snapshot(grown), c) == Made(h, this, key, MappingNode, k, c)
    {
      c, k, grown := Make(key, MappingNode, all);
    }

    method Seq(key: string, ghost all: set<Node>) returns (c: Node, ghost k: Node, ghost grown: set<Node>)
      requires this in all && Closed(Snapshot(all))
      modifies this`content
      ensures var h := old(Snapshot(all));
        if HoldsA(h, this, key, SequenceNode) then grown == all && Snapshot(all) == h && Lookup(h, this, key) == Some(c)
        else
          && fresh(c) && all <= grown && fresh(grown - all)
          && (FirstKey(h, this, key) < 0 ==> fresh(k) && k != c)
          && (Snapshot(grown), c) == Made(h, this, key, SequenceNode, k, c)
    {
      c, k, grown := Make(key, SequenceNode, all);
    }
  }

  /** A look-up depends on the node's own content and on the values of its key nodes. */
  lemma {:induction false} SameKeys(h: Store, h': Store, n: Node, key: string)
    requires Closed(h) && Closed(h') && n in h && n in h' && h[n].content == h'[n].content
    requires forall x :: x in h && x in h' ==> h[x].value == h'[x].value
    ensures FirstKey(h, n, key) == FirstKey(h', n, key)
  {
    forall j: nat | j < Pairs(h, n)
      ensures KeyOf(h, n, j) == KeyOf(h', n, j)
    {
      assert h[n].content[2 * j] in h[n].content;
    }
    var a, b := FirstKey(h, n, key), FirstKey(h', n, key);
    assert a >= 0 ==> KeyOf(h', n, a) == key;
    assert b >= 0 ==> KeyOf(h, n, b) == key;
  }

  // ----- trees -----

  /** No cycles: ranks grow downwards. */
  ghost predicate Ranked(h: Store, rank: map<Node, nat>) {
    && h.Keys <= rank.Keys
    && forall n, x :: n in h && x in h[n].content ==> x in rank && rank[n] < rank[x]
  }

  /** No node stands in two places. */
  ghost predicate OnePlace(h: Store) {
    forall n, m, i: nat, j: nat :: n in h && m in h && i < |h[n].content| && j < |h[m].content| ==>
      h[n].content[i] == h[m].content[j] ==> n == m && i == j
  }

  ghost predicate Paired(h: Store, n: Node)
    requires n in h
  {
    |h[n].content| == 2 * Pairs(h, n)
  }

  ghost predicate IsTree(h: Store, rank: map<Node, nat>) {
    && Closed(h)
    && Ranked(h, rank)
    && OnePlace(h)
    && forall n :: n in h && h[n].kind == MappingNode ==> Paired(h, n)
  }

  /** The node that a path of keys leads to, through mappings. */
  ghost function Find(h: Store, n: Node, path: seq<string>): (r: Option<Node>)
    requires Closed(h) && n in h
    ensures r.Some? ==> r.value in h
    decreases |path|
  {
    if path == [] then Some(n)
    else if h[n].kind != MappingNode then None
    else
      match Lookup(h, n, path[0])
      case None => None
      case Some(v) => Find(h, v, path[1..])
  }

  // ----- one edit -----

  /** All that a node holds but its content. */
  ghost predicate SameButContent(a: Cell, b: Cell) {
    a == b.(content := a.content)
  }

  ghost predicate KeepsNodes(h: Store, h': Store) {
    && h.Keys <= h'.Keys
    && forall n :: n in h ==> SameButContent(h'[n], h[n])
  }

  lemma {:induction false} SameLookup(h: Store, h': Store, n: Node, key: string)
    requires Closed(h) && Closed(h') && KeepsNodes(h, h') && n in h && h[n] == h'[n]
    ensures Lookup(h', n, key) == Lookup(h, n, key)
  {
    SameKeys(h, h', n, key);
  }

  lemma {:induction false} WithIsClosed(h: Store, n: Node, key: string, val: Node, k: Node)
    requires Closed(h) && n in h && val in h && k !in h
    ensures var h' := With(h, n, key, val, k);
      && Closed(h') && KeepsNodes(h, h') && h'.Keys <= h.Keys + {k}
      && forall x :: x in h && x != n ==> h'[x] == h[x]
  {
  }

  lemma {:induction false} WithoutIsClosed(h: Store, n: Node, key: string)
    requires Closed(h) && n in h
    ensures var h' := Without(h, n, key);
      && Closed(h') && KeepsNodes(h, h') && h'.Keys == h.Keys
      && forall x :: x in h && x != n ==> h'[x] == h[x]
  {
  }

  lemma {:induction false} MadeIsClosed(h: Store, n: Node, key: string, kind: Kind, k: Node, c: Node)
    requires Closed(h) && n in h && k !in h && c !in h && k != c
    ensures var (h', v) := Made(h, n, key, kind, k, c);
      && Closed(h') && KeepsNodes(h, h') && h'.Keys <= h.Keys + {k, c} && v in h'
      && forall x :: x in h && x != n ==> h'[x] == h[x]
  {
    if !HoldsA(h, n, key, kind) {
      WithIsClosed(h[c := Cell(kind, TagOf(kind), "", "", [])], n, key, c, k);
    }
  }

  lemma {:induction false} FirstKeyIs(h: Store, n: Node, key: string, j: nat)
    requires Closed(h) && n in h && j < Pairs(h, n) && KeyOf(h, n, j) == key
    requires forall p :: 0 <= p < j ==> KeyOf(h, n, p) != key
    ensures FirstKey(h, n, key) == j
  {
  }

  lemma {:induction false} NoKey(h: Store, n: Node, key: string)
    requires Closed(h) && n in h
    requires forall p :: 0 <= p < Pairs(h, n) ==> KeyOf(h, n, p) != key
    ensures FirstKey(h, n, key) == -1
  {
  }

  /** The key nodes stay where they were, a new one coming last. */
  lemma {:induction false} WithKeepsKeys(h: Store, n: Node, key: string, val: Node, k: Node)
    requires Closed(h) && n in h && val in h && k !in h && Paired(h, n)
    ensures var h' := With(h, n, key, val, k);
      && Paired(h', n) && Closed(h')
      && Pairs(h', n) == Pairs(h, n) + (if FirstKey(h, n, key) < 0 then 1 else 0)
      && (forall j :: 0 <= j < Pairs(h, n) ==>
        KeyOf(h', n, j) == KeyOf(h, n, j) && h'[n].content[2 * j] == h[n].content[2 * j])
      && (forall j :: 0 <= j < Pairs(h, n) && j != FirstKey(h, n, key) ==> ValueOf(h', n, j) == ValueOf(h, n, j))
      && (FirstKey(h, n, key) < 0 ==> KeyOf(h', n, Pairs(h, n)) == key && ValueOf(h', n, Pairs(h, n)) == val)
      && (FirstKey(h, n, key) < 0 ==> k in h' && h'[k] == Cell(ScalarNode, "!!str", key, "", []))
  {
    WithIsClosed(h, n, key, val, k);
    var h' := With(h, n, key, val, k);
    forall j | 0 <= j < Pairs(h, n)
      ensures KeyOf(h', n, j) == KeyOf(h, n, j) && h'[n].content[2 * j] == h[n].content[2 * j]
    {
      assert h[n].content[2 * j] in h[n].content;
    }
  }

  lemma {:induction false} LookupWith(h: Store, n: Node, key: string, val: Node, k: Node, other: string)
    requires Closed(h) && n in h && val in h && k !in h && Paired(h, n)
    ensures Closed(With(h, n, key, val, k))
    ensures Lookup(With(h, n, key, val, k), n, other) == if other == key then Some(val) else Lookup(h, n, other)
  {
    WithKeepsKeys(h, n, key, val, k);
    var h' := With(h, n, key, val, k);
    var j := FirstKey(h, n, other);
    if j >= 0 {
      FirstKeyIs(h', n, other, j);
    } else if other == key {
      FirstKeyIs(h', n, other, Pairs(h, n));
    } else {
      NoKey(h', n, other);
    }
  }

  /** Removal shifts the later pairs forward and keeps their order. */
  lemma {:induction false} WithoutShifts(h: Store, n: Node, key: string)
    requires Closed(h) && n in h && FirstKey(h, n, key) >= 0
    ensures var h', at := Without(h, n, key), FirstKey(h, n, key);
      && Closed(h') && Pairs(h', n) == Pairs(h, n) - 1
      && (Paired(h, n) ==> Paired(h', n))
      && (forall j :: 0 <= j < at ==> KeyOf(h', n, j) == KeyOf(h, n, j) && ValueOf(h', n, j) == ValueOf(h, n, j))
      && (forall j :: at < j < Pairs(h, n) ==>
        KeyOf(h', n, j - 1) == KeyOf(h, n, j) && ValueOf(h', n, j - 1) == ValueOf(h, n, j))
  {
    WithoutIsClosed(h, n, key);
    var h', at := Without(h, n, key), FirstKey(h, n, key);
    var c, c' := h[n].content, h'[n].content;
    assert c' == c[..2 * at] + c[2 * at + 2..];
    forall j | 0 <= j < at
      ensures KeyOf(h', n, j) == KeyOf(h, n, j) && ValueOf(h', n, j) == ValueOf(h, n, j)
    {
      assert c[2 * j] in c && c'[2 * j] == c[2 * j];
    }
    forall j | at < j < Pairs(h, n)
      ensures KeyOf(h', n, j - 1) == KeyOf(h, n, j) && ValueOf(h', n, j - 1) == ValueOf(h, n, j)
    {
      assert c[2 * j] in c && c'[2 * (j - 1)] == c[2 * j] && c'[2 * (j - 1) + 1] == c[2 * j + 1];
    }
  }

  lemma {:induction false} WithoutAbsent(h: Store, n: Node, key: string)
    requires Closed(h) && n in h && FirstKey(h, n, key) < 0
    ensures Without(h, n, key) == h
  {
  }

  lemma {:induction false} LookupWithoutOther(h: Store, n: Node, key: string, other: string)
    requires Closed(h) && n in h && other != key
    ensures Closed(Without(h, n, key)) && Lookup(Without(h, n, key), n, other) == Lookup(h, n, other)
  {
    hide FirstKeyFrom, Without;
    WithoutIsClosed(h, n, key);
    var h', at := Without(h, n, key), FirstKey(h, n, key);
    if at < 0 {
      WithoutAbsent(h, n, key);
    } else {
      WithoutShifts(h, n, key);
      var j := FirstKey(h, n, other);
      ShiftedBack(h, n, key);
      if j < 0 {
        NoKey(h', n, other);
      } else {
        FirstKeyIs(h', n, other, if j < at then j else j - 1);
      }
    }
  }

  lemma {:induction false} ShiftedBack(h: Store, n: Node, key: string)
    requires Closed(h) && n in h && FirstKey(h, n, key) >= 0
    ensures var h', at := Without(h, n, key), FirstKey(h, n, key);
      && Closed(h') && Pairs(h', n) == Pairs(h, n) - 1
      && forall j :: 0 <= j < Pairs(h', n) ==> KeyOf(h', n, j) == KeyOf(h, n, if j < at then j else j + 1)
  {
    WithoutShifts(h, n, key);
    var h', at := Without(h, n, key), FirstKey(h, n, key);
    forall j | 0 <= j < Pairs(h', n)
      ensures KeyOf(h', n, j) == KeyOf(h, n, if j < at then j else j + 1)
    {
      assert j >= at ==> KeyOf(h', n, (j + 1) - 1) == KeyOf(h, n, j + 1);
    }
  }

  ghost predicate UniqueKey(h: Store, n: Node, key: string)
    requires Closed(h) && n in h
  {
    forall i, j :: 0 <= i < j < Pairs(h, n) && KeyOf(h, n, i) == key ==> KeyOf(h, n, j) != key
  }

  /** After a removal the key is gone exactly when it stood there at most once. */
  lemma {:induction false} RemovedIffUnique(h: Store, n: Node, key: string)
    requires Closed(h) && n in h
    ensures Closed(Without(h, n, key))
    ensures Lookup(Without(h, n, key), n, key) == None <==> UniqueKey(h, n, key)
  {
    WithoutIsClosed(h, n, key);
    var h', at := Without(h, n, key), FirstKey(h, n, key);
    if at >= 0 {
      ShiftedBack(h, n, key);
      var r := FirstKey(h', n, key);
      if r >= at {
        assert KeyOf(h, n, r + 1) == key;
      } else {
        forall j | at < j < Pairs(h, n)
          ensures KeyOf(h, n, j) != key
        {
          assert KeyOf(h', n, j - 1) != key;
        }
      }
    }
  }

  /** `{a: 1, a: 2}`. */
  ghost function TwiceA(n: Node, k: Node, v: Node, k': Node, v': Node): Store {
    map[n := Cell(MappingNode, "!!map", "", "", [k, v, k', v']),
        k := Cell(ScalarNode, "!!str", "a", "", []), v := Cell(ScalarNode, "!!int", "1", "", []),
        k' := Cell(ScalarNode, "!!str", "a", "", []), v' := Cell(ScalarNode, "!!int", "2", "", [])]
  }

  /** A mapping that holds "a" twice still holds it after the removal. */
  lemma {:induction false} SecondIsLeft(n: Node, k: Node, v: Node, k': Node, v': Node)
    requires n != k && n != v && n != k' && n != v' && k != v && k != k' && k != v' && v != k' && v != v' && k' != v'
    ensures var h := TwiceA(n, k, v, k', v');
      Closed(h) && Closed(Without(h, n, "a")) && Lookup(Without(h, n, "a"), n, "a") == Some(v')
  {
    var h := TwiceA(n, k, v, k', v');
    assert h[n].content == [k, v, k', v'];
    LeftOfTwo(h, n, k, v, k', v', "a");
  }

  lemma {:induction false} LeftOfTwo(h: Store, n: Node, k: Node, v: Node, k': Node, v': Node, key: string)
    requires Closed(h) && n in h && h[n].content == [k, v, k', v'] && {k, v, k', v'} <= h.Keys
    requires n != k' && h[k].value == key && h[k'].value == key
    ensures Closed(Without(h, n, key)) && Lookup(Without(h, n, key), n, key) == Some(v')
  {
    hide FirstKey;
    FirstKeyIs(h, n, key, 0);
    WithoutIsClosed(h, n, key);
    var h' := Without(h, n, key);
    assert h'[n].content == [k', v'];
    FirstKeyIs(h', n, key, 0);
  }

  lemma {:induction false} MadeReadsBack(h: Store, n: Node, key: string, kind: Kind, k: Node, c: Node)
    requires Closed(h) && n in h && k !in h && c !in h && k != c && Paired(h, n)
    ensures var (h', v) := Made(h, n, key, kind, k, c);
      Closed(h') && n in h' && Lookup(h', n, key) == Some(v) && h'[v].kind == kind
    ensures kind == MappingNode && !HoldsA(h, n, key, kind) ==>
      Made(h, n, key, kind, k, c).0[c] == Cell(MappingNode, "!!map", "", "", [])
    ensures kind == SequenceNode && !HoldsA(h, n, key, kind) ==>
      Made(h, n, key, kind, k, c).0[c] == Cell(SequenceNode, "!!seq", "", "", [])
  {
    MadeIsClosed(h, n, key, kind, k, c);
    if !HoldsA(h, n, key, kind) {
      LookupWith(h[c := Cell(kind, TagOf(kind), "", "", [])], n, key, c, k, key);
    }
  }

  /** Asking for the mapping or sequence at a key a second time changes nothing and gives the
      same node. */
  lemma {:induction false} MadeTwice(h: Store, n: Node, key: string, kind: Kind, k: Node, c: Node, k2: Node, c2: Node)
    requires Closed(h) && n in h && k !in h && c !in h && k != c && Paired(h, n)
    requires c2 !in Made(h, n, key, kind, k, c).0
    ensures var (h', v) := Made(h, n, key, kind, k, c);
      Closed(h') && n in h' && Made(h', n, key, kind, k2, c2) == (h', v)
  {
    MadeReadsBack(h, n, key, kind, k, c);
  }

  // ----- a chain of edits along one path -----

  /** What happens at the end of the path; before it come `child` calls. */
  datatype Last = Put(key: string, val: Node) | PutSeq(key: string) | Remove(key: string)

  /** Nodes not in use yet. */
  ghost predicate Unused(h: Store, supply: seq<Node>) {
    && (forall i :: 0 <= i < |supply| ==> supply[i] !in h)
    && (forall i, j :: 0 <= i < j < |supply| ==> supply[i] != supply[j])
  }

  ghost predicate Ready(h: Store, n: Node, path: seq<string>, last: Last, supply: seq<Node>) {
    && Closed(h) && n in h && Unused(h, supply) && |supply| == 2 * |path| + 2
    && (last.Put? ==> last.val in h)
  }

  ghost function Finish(h: Store, n: Node, last: Last, k: Node, c: Node): Store
    requires Closed(h) && n in h && c !in h
  {
    match last
    case Put(key, val) => With(h, n, key, val, k)
    case PutSeq(key) => Made(h, n, key, SequenceNode, k, c).0
    case Remove(key) => Without(h, n, key)
  }

  /** The document and the place in it after one `child` call. */
  ghost function Descend(h: Store, n: Node, path: seq<string>, last: Last, supply: seq<Node>): (r: (Store, Node))
    requires Ready(h, n, path, last, supply) && path != []
    ensures Ready(r.0, r.1, path[1..], last, supply[2..])
  {
    MadeIsClosed(h, n, path[0], MappingNode, supply[0], supply[1]);
    Made(h, n, path[0], MappingNode, supply[0], supply[1])
  }

  /** `root.child(path[0]).child(path[1])...` and then the last step. */
  ghost function Edit(h: Store, n: Node, path: seq<string>, last: Last, supply: seq<Node>): Store
    requires Ready(h, n, path, last, supply)
    decreases |path|
  {
    if path == [] then Finish(h, n, last, supply[0], supply[1])
    else
      var (h1, c) := Descend(h, n, path, last, supply);
      Edit(h1, c, path[1..], last, supply[2..])
  }

  /** Nodes that the operation does not ask for do not matter. */
  lemma {:induction false} MadeIgnores(h: Store, n: Node, key: string, kind: Kind, k: Node, c: Node, k': Node, c': Node)
    requires Closed(h) && n in h && c !in h && c' !in h
    requires HoldsA(h, n, key, kind) || (c' == c && (FirstKey(h, n, key) >= 0 || k' == k))
    ensures Made(h, n, key, kind, k', c') == Made(h, n, key, kind, k, c)
  {
    if !HoldsA(h, n, key, kind) {
      SameKeys(h, h[c := Cell(kind, TagOf(kind), "", "", [])], n, key);
    }
  }

  /** The nodes a `child` or `seq` call made, with spares in place of those it did not need. */
  ghost method Supplied(h: Store, n: Node, key: string, kind: Kind, k: Node, c: Node) returns (k': Node, c': Node)
    requires Closed(h) && n in h
    requires !HoldsA(h, n, key, kind) ==> c !in h && (FirstKey(h, n, key) < 0 ==> k !in h && k != c)
    ensures k' !in h && c' !in h && k' != c'
    ensures fresh(k') || (k' == k && !HoldsA(h, n, key, kind) && FirstKey(h, n, key) < 0)
    ensures fresh(c') || (c' == c && !HoldsA(h, n, key, kind))
    ensures !HoldsA(h, n, key, kind) ==> c' == c && Made(h, n, key, kind, k', c') == Made(h, n, key, kind, k, c)
  {
    k' := new Node.Spare();
    c' := new Node.Spare();
    if !HoldsA(h, n, key, kind) {
      c' := c;
      if FirstKey(h, n, key) < 0 {
        k' := k;
      }
      MadeIgnores(h, n, key, kind, k, c, k', c');
    }
  }

  /** One `child` or `seq` call of a chain. */
  method RunMake(n: Node, key: string, kind: Kind, ghost all: set<Node>)
    returns (c: Node, ghost k0: Node, ghost c0: Node, ghost mid: set<Node>)
    requires n in all && Closed(Snapshot(all)) && (kind == MappingNode || kind == SequenceNode)
    modifies n`content
    ensures all <= mid && fresh(mid - all) && fresh(k0) && fresh(c0) && k0 != c0
    ensures k0 !in old(Snapshot(all)) && c0 !in old(Snapshot(all))
    ensures (Snapshot(mid), c) == Made(old(Snapshot(all)), n, key, kind, k0, c0)
    ensures c in mid && Closed(Snapshot(mid))
  {
    hide With, FirstKey, Lookup;
    ghost var h := Snapshot(all);
    ghost var k;
    c, k, mid := n.Make(key, kind, all);
    k0, c0 := Supplied(h, n, key, kind, k, c);
    MadeIsClosed(h, n, key, kind, k0, c0);
    assert Snapshot(mid).Keys == mid;
  }

  /** The chain on the nodes themselves: the document afterwards is the edited one. */
  method RunChain(n: Node, path: seq<string>, last: Last, ghost all: set<Node>)
    returns (ghost supply: seq<Node>, ghost grown: set<Node>)
    requires n in all && Closed(Snapshot(all)) && (last.Put? ==> last.val in all)
    modifies all`content
    ensures all <= grown && fresh(grown - all) && fresh(set x | x in supply)
    ensures Ready(old(Snapshot(all)), n, path, last, supply)
    ensures Snapshot(grown) == Edit(old(Snapshot(all)), n, path, last, supply)
    decreases |path|
  {
    hide Made, Finish, Closed;
    if path == [] {
      supply, grown := RunLast(n, last, all);
    } else {
      ghost var h := Snapshot(all);
      ghost var k0, c0, mid;
      var c;
      c, k0, c0, mid := RunMake(n, path[0], MappingNode, all);
      ghost var rest;
      rest, grown := RunChain(c, path[1..], last, mid);
      supply := [k0, c0] + rest;
      assert supply[2..] == rest;
    }
  }

  method RunLast(n: Node, last: Last, ghost all: set<Node>) returns (ghost supply: seq<Node>, ghost grown: set<Node>)
    requires n in all && Closed(Snapshot(all)) && (last.Put? ==> last.val in all)
    modifies n`content
    ensures all <= grown && fresh(grown - all) && fresh(set x | x in supply)
    ensures Ready(old(Snapshot(all)), n, [], last, supply)
    ensures Snapshot(grown) == Finish(old(Snapshot(all)), n, last, supply[0], supply[1])
  {
    hide Made, Without, FirstKey, Lookup, HoldsA;
    ghost var h := Snapshot(all);
    ghost var k0 := new Node.Spare();
    ghost var c0 := new Node.Spare();
    grown := all;
    match last {
      case Put(key, val) =>
        ghost var k := n.SetNode(key, val, all);
        if FirstKey(h, n, key) < 0 {
          k0, grown := k, all + {k};
        }
      case PutSeq(key) =>
        var c;
        c, k0, c0, grown := RunMake(n, key, SequenceNode, all);
      case Remove(key) =>
        var _ := n.Del(key, all);
    }
    supply := [k0, c0];
  }

  lemma {:induction false} FinishIsClosed(h: Store, n: Node, last: Last, k: Node, c: Node)
    requires Closed(h) && n in h && c !in h && k !in h && k != c && (last.Put? ==> last.val in h)
    ensures var h' := Finish(h, n, last, k, c);
      Closed(h') && KeepsNodes(h, h') && forall x :: x in h && x != n ==> h'[x] == h[x]
  {
    match last
    case Put(key, val) => WithIsClosed(h, n, key, val, k);
    case PutSeq(key) => MadeIsClosed(h, n, key, SequenceNode, k, c);
    case Remove(key) => WithoutIsClosed(h, n, key);
  }

  /** An edit keeps every node and, but for its content, all that the node holds. */
  lemma {:induction false} EditKeepsNodes(h: Store, n: Node, path: seq<string>, last: Last, supply: seq<Node>)
    requires Ready(h, n, path, last, supply)
    ensures Closed(Edit(h, n, path, last, supply)) && KeepsNodes(h, Edit(h, n, path, last, supply))
    decreases |path|
  {
    if path == [] {
      FinishIsClosed(h, n, last, supply[0], supply[1]);
    } else {
      var (h1, c) := Descend(h, n, path, last, supply);
      MadeIsClosed(h, n, path[0], MappingNode, supply[0], supply[1]);
      EditKeepsNodes(h1, c, path[1..], last, supply[2..]);
    }
  }

  ghost predicate OnPath(h: Store, n: Node, path: seq<string>, x: Node)
    requires Closed(h) && n in h
  {
    exists p :: p <= path && Find(h, n, p) == Some(x)
  }

  /** Only nodes on the path change at all. */
  lemma {:induction false} OnlyPathChanges(h: Store, n: Node, path: seq<string>, last: Last, supply: seq<Node>, x: Node)
    requires Ready(h, n, path, last, supply) && h[n].kind == MappingNode
    requires x in h && !OnPath(h, n, path, x)
    ensures x in Edit(h, n, path, last, supply) && Edit(h, n, path, last, supply)[x] == h[x]
    decreases |path|
  {
    assert Find(h, n, []) == Some(n) && [] <= path;
    if path == [] {
      FinishIsClosed(h, n, last, supply[0], supply[1]);
    } else {
      var (h1, c) := Descend(h, n, path, last, supply);
      MadeIsClosed(h, n, path[0], MappingNode, supply[0], supply[1]);
      if HoldsA(h, n, path[0], MappingNode) {
        forall p | p <= path[1..]
          ensures Find(h1, c, p) != Some(x)
        {
          assert ([path[0]] + p)[1..] == p && [path[0]] + p <= path;
          assert Find(h, n, [path[0]] + p) == Find(h1, c, p);
        }
      } else {
        forall p | p <= path[1..]
          ensures Find(h1, c, p) != Some(x)
        {
          FreshIsEmpty(h, n, path[0], supply[0], c, p);
        }
      }
      assert !OnPath(h1, c, path[1..], x);
      OnlyPathChanges(h1, c, path[1..], last, supply[2..], x);
    }
  }

  /** Nothing is below a mapping that was just made. */
  lemma {:induction false} FreshIsEmpty(h: Store, n: Node, key: string, k: Node, c: Node, p: seq<string>)
    requires Closed(h) && n in h && k !in h && c !in h && k != c && !HoldsA(h, n, key, MappingNode)
    ensures var h' := Made(h, n, key, MappingNode, k, c).0;
      Closed(h') && c in h' && h'[c].kind == MappingNode && Find(h', c, p) == (if p == [] then Some(c) else None)
  {
    MadeIsClosed(h, n, key, MappingNode, k, c);
    var h' := Made(h, n, key, MappingNode, k, c).0;
    assert Pairs(h', c) == 0;
  }

  // ----- trees stay trees -----

  ghost predicate Unplaced(h: Store, v: Node) {
    forall n :: n in h ==> v !in h[n].content
  }

  lemma {:induction false} WithRanked(h: Store, rank: map<Node, nat>, n: Node, key: string, val: Node, k: Node)
    requires Closed(h) && Ranked(h, rank) && n in h && val in h && rank[n] < rank[val] && k !in h
    ensures Ranked(With(h, n, key, val, k), rank[k := rank[n] + 1])
  {
    var h', rank' := With(h, n, key, val, k), rank[k := rank[n] + 1];
    WithIsClosed(h, n, key, val, k);
    forall m, x | m in h' && x in h'[m].content
      ensures x in rank' && rank'[m] < rank'[x]
    {
      assert x in h[m].content || (m == n && (x == val || x == k));
    }
  }

  lemma {:induction false} WithKeepsTree(h: Store, rank: map<Node, nat>, n: Node, key: string, val: Node, k: Node)
    requires IsTree(h, rank) && n in h && h[n].kind == MappingNode
    requires val in h && Unplaced(h, val) && rank[n] < rank[val] && k !in h
    ensures IsTree(With(h, n, key, val, k), rank[k := rank[n] + 1])
  {
    WithIsClosed(h, n, key, val, k);
    WithKeepsKeys(h, n, key, val, k);
    WithRanked(h, rank, n, key, val, k);
    WithOnePlace(h, n, key, val, k);
    var h' := With(h, n, key, val, k);
    forall m | m in h' && h'[m].kind == MappingNode
      ensures Paired(h', m)
    {
      assert m != n && m != k ==> h'[m] == h[m];
    }
  }

  lemma {:induction false} WithOnePlace(h: Store, n: Node, key: string, val: Node, k: Node)
    requires Closed(h) && OnePlace(h) && n in h && val in h && Unplaced(h, val) && k !in h
    ensures OnePlace(With(h, n, key, val, k))
  {
    var h' := With(h, n, key, val, k);
    var at := if FirstKey(h, n, key) >= 0 then 2 * FirstKey(h, n, key) + 1 else |h[n].content| + 1;
    forall x, i: nat | x in h' && i < |h'[x].content|
      ensures h'[x].content[i] == val <==> x == n && i == at
      ensures h'[x].content[i] != val && h'[x].content[i] != k ==>
        x in h && i < |h[x].content| && h[x].content[i] == h'[x].content[i]
      ensures h'[x].content[i] == k ==> x == n && i == |h[n].content|
    {
      assert x in h && i < |h[x].content| ==> h[x].content[i] in h[x].content;
    }
  }

  lemma {:induction false} MoreRanks(h: Store, rank: map<Node, nat>, c: Node, r: nat)
    requires IsTree(h, rank) && c !in h
    ensures IsTree(h, rank[c := r])
  {
  }

  lemma {:induction false} NewNodeKeepsTree(h: Store, rank: map<Node, nat>, c: Node, kind: Kind, r: nat)
    requires IsTree(h, rank) && c !in h
    ensures IsTree(h[c := Cell(kind, TagOf(kind), "", "", [])], rank[c := r])
    ensures Unplaced(h[c := Cell(kind, TagOf(kind), "", "", [])], c)
  {
  }

  lemma {:induction false} MadeKeepsTree(h: Store, rank: map<Node, nat>, n: Node, key: string, kind: Kind, k: Node,
                                         c: Node)
    requires IsTree(h, rank) && n in h && h[n].kind == MappingNode
    requires k !in h && c !in h && k != c
    ensures IsTree(Made(h, n, key, kind, k, c).0, rank[c := rank[n] + 1][k := rank[n] + 1])
  {
    hide OnePlace, With, FirstKey, KeyOf;
    var rank' := rank[c := rank[n] + 1];
    if HoldsA(h, n, key, kind) {
      MoreRanks(h, rank, c, rank[n] + 1);
      MoreRanks(h, rank', k, rank[n] + 1);
    } else {
      NewNodeKeepsTree(h, rank, c, kind, rank[n] + 1);
      WithKeepsTree(h[c := Cell(kind, TagOf(kind), "", "", [])], rank', n, key, c, k);
    }
  }

  lemma {:induction false} WithoutPlaces(h: Store, n: Node, key: string, x: Node, i: nat) returns (i': nat)
    requires Closed(h) && n in h && x in h && i < |Without(h, n, key)[x].content|
    ensures i' < |h[x].content| && h[x].content[i'] == Without(h, n, key)[x].content[i]
    ensures i' == if x == n && FirstKey(h, n, key) >= 0 && i >= 2 * FirstKey(h, n, key) then i + 2 else i
  {
    i' := if x == n && FirstKey(h, n, key) >= 0 && i >= 2 * FirstKey(h, n, key) then i + 2 else i;
  }

  lemma {:induction false} WithoutOnePlace(h: Store, n: Node, key: string)
    requires Closed(h) && OnePlace(h) && n in h
    ensures OnePlace(Without(h, n, key))
  {
    var h' := Without(h, n, key);
    WithoutIsClosed(h, n, key);
    forall x, y, i: nat, j: nat | x in h' && y in h' && i < |h'[x].content| && j < |h'[y].content| &&
      h'[x].content[i] == h'[y].content[j]
      ensures x == y && i == j
    {
      var i' := WithoutPlaces(h, n, key, x, i);
      var j' := WithoutPlaces(h, n, key, y, j);
    }
  }

  lemma {:induction false} WithoutKeepsTree(h: Store, rank: map<Node, nat>, n: Node, key: string)
    requires IsTree(h, rank) && n in h
    ensures IsTree(Without(h, n, key), rank)
  {
    var h' := Without(h, n, key);
    WithoutIsClosed(h, n, key);
    WithoutOnePlace(h, n, key);
    if FirstKey(h, n, key) >= 0 {
      WithoutShifts(h, n, key);
    }
    forall x, y | x in h' && y in h'[x].content
      ensures y in rank && rank[x] < rank[y]
    {
      var i :| 0 <= i < |h'[x].content| && h'[x].content[i] == y;
      var i' := WithoutPlaces(h, n, key, x, i);
      assert y in h[x].content;
    }
  }

  // ----- paths in a tree -----

  lemma {:induction false} FirstOf(p: seq<string>)
    requires p != []
    ensures p == [p[0]] + p[1..]
  {
  }

  lemma {:induction false} LastOf(p: seq<string>)
    requires p != []
    ensures p == p[..|p| - 1] + [p[|p| - 1]]
  {
  }

  lemma {:induction false} HeadOf(p: seq<string>, key: string)
    requires p != []
    ensures p + [key] == [p[0]] + (p[1..] + [key])
  {
  }

  lemma {:induction false} FindRank(h: Store, rank: map<Node, nat>, n: Node, q: seq<string>)
    requires Closed(h) && Ranked(h, rank) && n in h && Find(h, n, q).Some?
    ensures rank[n] <= rank[Find(h, n, q).value]
    ensures q != [] ==> rank[n] < rank[Find(h, n, q).value]
    decreases |q|
  {
    if q != [] {
      var v := Lookup(h, n, q[0]).value;
      assert v in h[n].content;
      FindRank(h, rank, v, q[1..]);
    }
  }

  lemma {:induction false} FindSnoc(h: Store, n: Node, q: seq<string>, key: string)
    requires Closed(h) && n in h
    ensures Find(h, n, q + [key]).Some? ==> Find(h, n, q).Some?
    ensures Find(h, n, q + [key]).Some? ==>
      var y := Find(h, n, q).value;
      h[y].kind == MappingNode && Lookup(h, y, key) == Find(h, n, q + [key])
    decreases |q|
  {
    assert (q + [key])[0] == (if q == [] then key else q[0]);
    if q == [] {
      assert (q + [key])[1..] == [];
    } else {
      assert (q + [key])[1..] == q[1..] + [key];
      if h[n].kind == MappingNode && Lookup(h, n, q[0]).Some? {
        FindSnoc(h, Lookup(h, n, q[0]).value, q[1..], key);
      }
    }
  }

  lemma {:induction false} SamePlace(h: Store, a: Node, ka: string, b: Node, kb: string)
    requires Closed(h) && OnePlace(h) && a in h && b in h
    requires Lookup(h, a, ka).Some? && Lookup(h, a, ka) == Lookup(h, b, kb)
    ensures a == b && ka == kb
  {
    var i, j := FirstKey(h, a, ka), FirstKey(h, b, kb);
    assert h[a].content[2 * i + 1] == h[b].content[2 * j + 1];
  }

  lemma {:induction false} LastKeysAgree(h: Store, n: Node, p: seq<string>, k: string, q: seq<string>, l: string)
    requires Closed(h) && OnePlace(h) && n in h
    requires Find(h, n, p + [k]).Some? && Find(h, n, p + [k]) == Find(h, n, q + [l])
    ensures Find(h, n, p).Some? && Find(h, n, p) == Find(h, n, q) && k == l
  {
    FindSnoc(h, n, p, k);
    FindSnoc(h, n, q, l);
    SamePlace(h, Find(h, n, p).value, k, Find(h, n, q).value, l);
  }

  /** In a tree no two paths lead to the same node. */
  lemma {:induction false} UniquePath(h: Store, rank: map<Node, nat>, n: Node, p: seq<string>, q: seq<string>)
    requires IsTree(h, rank) && n in h && Find(h, n, p).Some? && Find(h, n, p) == Find(h, n, q)
    ensures p == q
    decreases |p|
  {
    FindRank(h, rank, n, p);
    FindRank(h, rank, n, q);
    if p != [] && q != [] {
      var p', q', k, l := p[..|p| - 1], q[..|q| - 1], p[|p| - 1], q[|q| - 1];
      LastOf(p);
      LastOf(q);
      LastKeysAgree(h, n, p', k, q', l);
      UniquePath(h, rank, n, p', q');
    }
  }

  // ----- what an edit leaves alone, and what it sets -----

  /** A look-up below `v` is the same while no node below `v` changes. */
  lemma {:induction false} SubtreeSame(h: Store, h': Store, v: Node, q: seq<string>)
    requires Closed(h) && Closed(h') && KeepsNodes(h, h') && v in h
    requires forall p :: p <= q && Find(h, v, p).Some? ==> h'[Find(h, v, p).value] == h[Find(h, v, p).value]
    ensures Find(h', v, q) == Find(h, v, q)
    decreases |q|
  {
    assert [] <= q && Find(h, v, []) == Some(v);
    if q != [] {
      SameLookup(h, h', v, q[0]);
      if h[v].kind == MappingNode && Lookup(h, v, q[0]).Some? {
        var w := Lookup(h, v, q[0]).value;
        forall p | p <= q[1..] && Find(h, w, p).Some?
          ensures h'[Find(h, w, p).value] == h[Find(h, w, p).value]
        {
          assert ([q[0]] + p)[1..] == p && [q[0]] + p <= q;
          assert Find(h, v, [q[0]] + p) == Find(h, w, p);
        }
        SubtreeSame(h, h', w, q[1..]);
      }
    }
  }

  /** A place that the first key does not lead to is not on the rest of the path. */
  lemma {:induction false} OffTheRest(h: Store, rank: map<Node, nat>, n: Node, key: string, rest: seq<string>,
                                      q: seq<string>, x: Node)
    requires IsTree(h, rank) && n in h && h[n].kind == MappingNode && Lookup(h, n, key).Some?
    requires Find(h, n, q) == Some(x) && (q == [] || q[0] != key)
    ensures !OnPath(h, Lookup(h, n, key).value, rest, x)
  {
    var c := Lookup(h, n, key).value;
    forall p | p <= rest
      ensures Find(h, c, p) != Some(x)
    {
      assert ([key] + p)[1..] == p;
      assert Find(h, n, [key] + p) == Find(h, c, p);
      if Find(h, c, p) == Some(x) {
        UniquePath(h, rank, n, [key] + p, q);
        assert false;
      }
    }
  }

  /** After the first `child` call the tree is still a tree and its key leads to the cursor. */
  lemma {:induction false} AfterDescend(h: Store, rank: map<Node, nat>, n: Node, path: seq<string>, last: Last,
                                        supply: seq<Node>) returns (rank': map<Node, nat>)
    requires IsTree(h, rank) && Ready(h, n, path, last, supply) && path != [] && h[n].kind == MappingNode
    ensures var (h1, c) := Descend(h, n, path, last, supply);
      && IsTree(h1, rank') && KeepsNodes(h, h1)
      && n in h1 && h1[n].kind == MappingNode && h1[c].kind == MappingNode
      && Lookup(h1, n, path[0]) == Some(c)
      && (forall key :: key != path[0] ==> Lookup(h1, n, key) == Lookup(h, n, key))
      && (forall x :: x in h && x != n ==> h1[x] == h[x])
  {
    hide With, FirstKey, OnePlace, KeyOf;
    var (h1, c) := Descend(h, n, path, last, supply);
    rank' := rank[supply[1] := rank[n] + 1][supply[0] := rank[n] + 1];
    MadeKeepsTree(h, rank, n, path[0], MappingNode, supply[0], supply[1]);
    MadeIsClosed(h, n, path[0], MappingNode, supply[0], supply[1]);
    MadeReadsBack(h, n, path[0], MappingNode, supply[0], supply[1]);
    if !HoldsA(h, n, path[0], MappingNode) {
      var hc := h[supply[1] := Cell(MappingNode, TagOf(MappingNode), "", "", [])];
      forall key | key != path[0]
        ensures Lookup(h1, n, key) == Lookup(h, n, key)
      {
        LookupWith(hc, n, path[0], supply[1], supply[0], key);
        SameLookup(h, hc, n, key);
      }
    }
  }

  /** The rest of the path does not touch its start again. */
  lemma {:induction false} StartUntouched(h: Store, rank: map<Node, nat>, n: Node, key: string, path: seq<string>,
                                          last: Last, supply: seq<Node>)
    requires IsTree(h, rank) && n in h && h[n].kind == MappingNode && Lookup(h, n, key).Some?
    requires Ready(h, Lookup(h, n, key).value, path, last, supply) && h[Lookup(h, n, key).value].kind == MappingNode
    ensures n in Edit(h, Lookup(h, n, key).value, path, last, supply) &&
      Edit(h, Lookup(h, n, key).value, path, last, supply)[n] == h[n]
  {
    OffTheRest(h, rank, n, key, path, [], n);
    OnlyPathChanges(h, Lookup(h, n, key).value, path, last, supply, n);
  }

  /** What the last step left at its key. */
  ghost predicate Wrote(h: Store, r: Option<Node>, last: Last) {
    match last
    case Put(_, val) => r == Some(val)
    case PutSeq(_) => r.Some? && r.value in h && h[r.value].kind == SequenceNode
    case Remove(_) => r == None
  }

  /** `del` removes one pair only, so the key must not stand twice in the mapping it acts on. */
  ghost predicate RemovesAll(h: Store, n: Node, path: seq<string>, last: Last)
    requires Closed(h) && n in h
  {
    last.Remove? ==>
      var r := Find(h, n, path);
      r.Some? && h[r.value].kind == MappingNode ==> UniqueKey(h, r.value, last.key)
  }

  lemma {:induction false} FinishReadsBack(h: Store, n: Node, last: Last, k: Node, c: Node)
    requires Closed(h) && n in h && h[n].kind == MappingNode && Paired(h, n) && (last.Put? ==> last.val in h)
    requires c !in h && k !in h && k != c
    ensures var h' := Finish(h, n, last, k, c);
      Closed(h') && n in h' && h'[n].kind == MappingNode &&
        (Wrote(h', Lookup(h', n, last.key), last) <==> (last.Remove? ==> UniqueKey(h, n, last.key)))
  {
    FinishIsClosed(h, n, last, k, c);
    match last
    case Put(key, val) => LookupWith(h, n, key, val, k, key);
    case PutSeq(key) => MadeReadsBack(h, n, key, SequenceNode, k, c);
    case Remove(key) => RemovedIffUnique(h, n, key);
  }

  lemma {:induction false} RemovesAllStep(h: Store, n: Node, path: seq<string>, last: Last, supply: seq<Node>)
    requires Ready(h, n, path, last, supply) && path != [] && h[n].kind == MappingNode
    ensures var (h1, c) := Descend(h, n, path, last, supply);
      RemovesAll(h1, c, path[1..], last) <==> RemovesAll(h, n, path, last)
  {
    var (h1, c) := Descend(h, n, path, last, supply);
    if HoldsA(h, n, path[0], MappingNode) {
      assert Find(h, n, path) == Find(h1, c, path[1..]);
    } else {
      FreshIsEmpty(h, n, path[0], supply[0], c, path[1..]);
      assert Pairs(h1, c) == 0;
      assert RemovesAll(h1, c, path[1..], last);
      assert Find(h, n, path).Some? ==> h[Find(h, n, path).value].kind != MappingNode;
    }
  }

  /** After the whole chain the first key still leads to where the first `child` call led. */
  lemma {:induction false} HeadKept(h: Store, rank: map<Node, nat>, n: Node, path: seq<string>, last: Last,
                                    supply: seq<Node>)
    requires IsTree(h, rank) && Ready(h, n, path, last, supply) && path != [] && h[n].kind == MappingNode
    ensures var h' := Edit(h, n, path, last, supply);
      var (h1, c) := Descend(h, n, path, last, supply);
      && Closed(h') && KeepsNodes(h1, h') && n in h1 && h'[n] == h1[n] && h'[n].kind == MappingNode
      && Lookup(h', n, path[0]) == Some(c)
  {
    var h' := Edit(h, n, path, last, supply);
    var (h1, c) := Descend(h, n, path, last, supply);
    var rank1 := AfterDescend(h, rank, n, path, last, supply);
    StartUntouched(h1, rank1, n, path[0], path[1..], last, supply[2..]);
    EditKeepsNodes(h1, c, path[1..], last, supply[2..]);
    SameLookup(h1, h', n, path[0]);
  }

  lemma {:induction false} HeadFind(h: Store, rank: map<Node, nat>, n: Node, path: seq<string>, last: Last,
                                    supply: seq<Node>, q: seq<string>)
    requires IsTree(h, rank) && Ready(h, n, path, last, supply) && path != [] && h[n].kind == MappingNode
    ensures var h' := Edit(h, n, path, last, supply);
      && Closed(h') && n in h' && Descend(h, n, path, last, supply).1 in h'
      && Find(h', n, [path[0]] + q) == Find(h', Descend(h, n, path, last, supply).1, q)
  {
    HeadKept(h, rank, n, path, last, supply);
    assert ([path[0]] + q)[1..] == q;
  }

  /** The chain reads back as written, whatever stood along the path before; for a removal,
      exactly when the key stood there at most once. */
  lemma {:induction false} ReadsBack(h: Store, rank: map<Node, nat>, n: Node, path: seq<string>, last: Last,
                                     supply: seq<Node>)
    requires IsTree(h, rank) && Ready(h, n, path, last, supply) && h[n].kind == MappingNode
    ensures var h' := Edit(h, n, path, last, supply);
      Closed(h') && n in h' && (Wrote(h', Find(h', n, path + [last.key]), last) <==> RemovesAll(h, n, path, last))
    decreases |path|
  {
    if path == [] {
      FinishReadsBack(h, n, last, supply[0], supply[1]);
      assert (path + [last.key])[1..] == [];
    } else {
      var (h1, c) := Descend(h, n, path, last, supply);
      var rank1 := AfterDescend(h, rank, n, path, last, supply);
      RemovesAllStep(h, n, path, last, supply);
      ReadsBack(h1, rank1, c, path[1..], last, supply[2..]);
      HeadFind(h, rank, n, path, last, supply, path[1..] + [last.key]);
      HeadOf(path, last.key);
    }
  }

  lemma {:induction false} PartsLater(path: seq<string>, key: string, q: seq<string>)
    requires path != [] && !(q <= path + [key]) && !(path + [key] <= q) && q[0] == path[0]
    ensures q[1..] != [] && !(q[1..] <= path[1..] + [key]) && !(path[1..] + [key] <= q[1..])
  {
    assert path + [key] == [path[0]] + (path[1..] + [key]) && q == [q[0]] + q[1..];
    assert q[1..] <= path[1..] + [key] ==> q <= path + [key];
    assert path[1..] + [key] <= q[1..] ==> path + [key] <= q;
  }

  /** Every look-up whose path parts from the edited one gives the very same node. */
  lemma {:induction false} OffPathSame(h: Store, rank: map<Node, nat>, n: Node, path: seq<string>, last: Last,
                                       supply: seq<Node>, q: seq<string>)
    requires IsTree(h, rank) && Ready(h, n, path, last, supply) && h[n].kind == MappingNode
    requires !(q <= path + [last.key]) && !(path + [last.key] <= q)
    ensures var h' := Edit(h, n, path, last, supply);
      Closed(h') && n in h' && Find(h', n, q) == Find(h, n, q)
    decreases |path|
  {
    if path == [] {
      assert q[0] != last.key;
      FinishIsClosed(h, n, last, supply[0], supply[1]);
      FinishOther(h, n, last, supply[0], supply[1], q[0]);
      BelowSame(h, rank, Edit(h, n, path, last, supply), n, q);
    } else {
      var (h1, c) := Descend(h, n, path, last, supply);
      var rank1 := AfterDescend(h, rank, n, path, last, supply);
      HeadKept(h, rank, n, path, last, supply);
      if q[0] != path[0] {
        BelowSame(h, rank, h1, n, q);
        AsideSame(h1, rank1, n, path[0], path[1..], last, supply[2..], q);
      } else {
        PartsLater(path, last.key, q);
        OffPathSame(h1, rank1, c, path[1..], last, supply[2..], q[1..]);
        BelowDescend(h, n, path, last, supply, q[1..]);
        HeadFind(h, rank, n, path, last, supply, q[1..]);
        FirstOf(q);
      }
    }
  }

  /** The first `child` call itself changes nothing that could be found below its key. */
  lemma {:induction false} BelowDescend(h: Store, n: Node, path: seq<string>, last: Last, supply: seq<Node>,
                                        q: seq<string>)
    requires Ready(h, n, path, last, supply) && path != [] && h[n].kind == MappingNode && q != []
    ensures var (h1, c) := Descend(h, n, path, last, supply);
      Find(h1, c, q) == Find(h, n, [path[0]] + q)
  {
    var (h1, c) := Descend(h, n, path, last, supply);
    assert ([path[0]] + q)[1..] == q;
    if !HoldsA(h, n, path[0], MappingNode) {
      FreshIsEmpty(h, n, path[0], supply[0], c, q);
    }
  }

  /** If only `n` changed, and not at the first key, all below that key is the same. */
  lemma {:induction false} BelowSame(h: Store, rank: map<Node, nat>, h': Store, n: Node, q: seq<string>)
    requires IsTree(h, rank) && Closed(h') && KeepsNodes(h, h') && n in h && q != []
    requires forall x :: x in h && x != n ==> h'[x] == h[x]
    requires Lookup(h', n, q[0]) == Lookup(h, n, q[0])
    ensures Find(h', n, q) == Find(h, n, q)
  {
    if h[n].kind == MappingNode && Lookup(h, n, q[0]).Some? {
      var v := Lookup(h, n, q[0]).value;
      assert v in h[n].content;
      forall p | p <= q[1..] && Find(h, v, p).Some?
        ensures h'[Find(h, v, p).value] == h[Find(h, v, p).value]
      {
        FindRank(h, rank, v, p);
      }
      SubtreeSame(h, h', v, q[1..]);
    }
  }

  /** The rest of the path changes nothing below another key of its start. */
  lemma {:induction false} AsideSame(h: Store, rank: map<Node, nat>, n: Node, key: string, path: seq<string>,
                                     last: Last, supply: seq<Node>, q: seq<string>)
    requires IsTree(h, rank) && n in h && h[n].kind == MappingNode && Lookup(h, n, key).Some?
    requires Ready(h, Lookup(h, n, key).value, path, last, supply) && h[Lookup(h, n, key).value].kind == MappingNode
    requires q != [] && q[0] != key
    ensures var h' := Edit(h, Lookup(h, n, key).value, path, last, supply);
      Closed(h') && n in h' && Find(h', n, q) == Find(h, n, q)
  {
    var c := Lookup(h, n, key).value;
    var h' := Edit(h, c, path, last, supply);
    EditKeepsNodes(h, c, path, last, supply);
    forall p | p <= q && Find(h, n, p).Some?
      ensures h'[Find(h, n, p).value] == h[Find(h, n, p).value]
    {
      var x := Find(h, n, p).value;
      OffTheRest(h, rank, n, key, path, p, x);
      OnlyPathChanges(h, c, path, last, supply, x);
    }
    SubtreeSame(h, h', n, q);
  }

  lemma {:induction false} FinishOther(h: Store, n: Node, last: Last, k: Node, c: Node, key: string)
    requires Closed(h) && n in h && Paired(h, n) && key != last.key && (last.Put? ==> last.val in h)
    requires c !in h && k !in h && k != c
    ensures Closed(Finish(h, n, last, k, c)) && n in Finish(h, n, last, k, c)
    ensures Lookup(Finish(h, n, last, k, c), n, key) == Lookup(h, n, key)
  {
    match last
    case Put(at, val) => LookupWith(h, n, at, val, k, key);
    case Remove(at) => LookupWithoutOther(h, n, at, key);
    case PutSeq(at) =>
      MadeIsClosed(h, n, at, SequenceNode, k, c);
      if !HoldsA(h, n, at, SequenceNode) {
        var hc := h[c := Cell(SequenceNode, TagOf(SequenceNode), "", "", [])];
        LookupWith(hc, n, at, c, k, key);
        SameLookup(h, hc, n, key);
      }
  }

  // ----- the whole document after a chain -----

  /** No key node moved; new ones came last. */
  ghost predicate KeysInPlace(h: Store, h': Store, x: Node)
    requires x in h && x in h'
  {
    && Pairs(h, x) <= Pairs(h', x)
    && forall j :: 0 <= j < Pairs(h, x) ==> h'[x].content[2 * j] == h[x].content[2 * j]
  }

  lemma {:induction false} MadeKeepsKeys(h: Store, n: Node, key: string, kind: Kind, k: Node, c: Node)
    requires Closed(h) && n in h && Paired(h, n) && k !in h && c !in h && k != c
    ensures n in Made(h, n, key, kind, k, c).0 && KeysInPlace(h, Made(h, n, key, kind, k, c).0, n)
  {
    if !HoldsA(h, n, key, kind) {
      WithKeepsKeys(h[c := Cell(kind, TagOf(kind), "", "", [])], n, key, c, k);
    }
  }

  /** Every key node of the document, with the comments it carries, stays in its place; only
      the mapping a removal acts on loses a pair. */
  lemma {:induction false} EditKeepsKeys(h: Store, rank: map<Node, nat>, n: Node, path: seq<string>, last: Last,
                                         supply: seq<Node>, x: Node)
    requires IsTree(h, rank) && Ready(h, n, path, last, supply) && h[n].kind == MappingNode && x in h
    requires last.Remove? ==> Find(h, n, path) != Some(x)
    ensures x in Edit(h, n, path, last, supply) && KeysInPlace(h, Edit(h, n, path, last, supply), x)
    decreases |path|
  {
    if path == [] {
      FinishIsClosed(h, n, last, supply[0], supply[1]);
      match last
      case Put(key, val) => WithKeepsKeys(h, n, key, val, supply[0]);
      case PutSeq(key) => MadeKeepsKeys(h, n, key, SequenceNode, supply[0], supply[1]);
      case Remove(_) =>
    } else {
      var (h1, c) := Descend(h, n, path, last, supply);
      var rank1 := AfterDescend(h, rank, n, path, last, supply);
      MadeKeepsKeys(h, n, path[0], MappingNode, supply[0], supply[1]);
      assert KeysInPlace(h, h1, x);
      if !HoldsA(h, n, path[0], MappingNode) {
        FreshIsEmpty(h, n, path[0], supply[0], c, path[1..]);
      }
      EditKeepsKeys(h1, rank1, c, path[1..], last, supply[2..], x);
    }
  }

  /** The nodes in `d` hang together and apart from the rest. */
  ghost predicate Apart(h: Store, d: set<Node>) {
    forall n, x :: n in h && x in h[n].content ==> (n in d <==> x in d)
  }

  ghost function Lifted(rank: map<Node, nat>, d: set<Node>, up: nat): map<Node, nat> {
    map x | x in rank :: if x in d then rank[x] + up else rank[x]
  }

  lemma {:induction false} LiftKeepsTree(h: Store, rank: map<Node, nat>, d: set<Node>, up: nat)
    requires IsTree(h, rank) && Apart(h, d)
    ensures IsTree(h, Lifted(rank, d, up))
  {
  }

  lemma {:induction false} DescendApart(h: Store, n: Node, path: seq<string>, last: Last, supply: seq<Node>,
                                        d: set<Node>)
    requires Ready(h, n, path, last, supply) && path != [] && n !in d && d <= h.Keys && Apart(h, d)
    requires last.Put? ==> last.val in d && Unplaced(h, last.val)
    ensures var (h1, c) := Descend(h, n, path, last, supply);
      Apart(h1, d) && c !in d && d <= h1.Keys && (last.Put? ==> Unplaced(h1, last.val))
  {
    hide FirstKeyFrom, KeyOf;
    var (h1, c) := Descend(h, n, path, last, supply);
    MadeIsClosed(h, n, path[0], MappingNode, supply[0], supply[1]);
    if HoldsA(h, n, path[0], MappingNode) {
      assert c in h[n].content;
    } else {
      forall m, x | m in h1 && x in h1[m].content
        ensures (m in d <==> x in d) && (last.Put? ==> x != last.val)
      {
        assert (m in h && x in h[m].content) || (m == n && (x == supply[0] || x == supply[1]));
      }
    }
  }

  /** A document stays a tree when what is put into it is a tree of its own. */
  lemma {:induction false} EditKeepsTree(h: Store, rank: map<Node, nat>, n: Node, path: seq<string>, last: Last,
                                         supply: seq<Node>, d: set<Node>) returns (rank': map<Node, nat>)
    requires IsTree(h, rank) && Ready(h, n, path, last, supply) && h[n].kind == MappingNode
    requires n !in d && d <= h.Keys && Apart(h, d) && (last.Put? ==> last.val in d && Unplaced(h, last.val))
    ensures IsTree(Edit(h, n, path, last, supply), rank')
    decreases |path|
  {
    if path == [] {
      match last
      case Put(key, val) =>
        var lifted := Lifted(rank, d, rank[n] + 1);
        LiftKeepsTree(h, rank, d, rank[n] + 1);
        WithKeepsTree(h, lifted, n, key, val, supply[0]);
        rank' := lifted[supply[0] := lifted[n] + 1];
      case PutSeq(key) =>
        MadeKeepsTree(h, rank, n, key, SequenceNode, supply[0], supply[1]);
        rank' := rank[supply[1] := rank[n] + 1][supply[0] := rank[n] + 1];
      case Remove(key) =>
        WithoutKeepsTree(h, rank, n, key);
        rank' := rank;
    } else {
      var (h1, c) := Descend(h, n, path, last, supply);
      var rank1 := AfterDescend(h, rank, n, path, last, supply);
      DescendApart(h, n, path, last, supply, d);
      rank' := EditKeepsTree(h1, rank1, c, path[1..], last, supply[2..], d);
    }
  }
}
