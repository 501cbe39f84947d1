/**
 * The record extractor `findAll`: a walk over a parsed document that
 * collects every truthy value stored under a given property name, at any
 * depth, expanding array values into their elements.
 */
module Extract {
  import opened Js

  /** `Object.values(n)` for an object or an array; nothing for a scalar. */
  function Children(n: Node): (r: seq<Node>)
    ensures n.Arr? ==> r == n.items
    ensures n.Obj? ==> r == Values(n.fields)
    ensures !n.Arr? && !n.Obj? ==> r == []
  {
    match n
    case Arr(items) => items
    case Obj(fields) => Values(fields)
    case _ => []
  }

  /** The property values of an object, in order. */
  function Values(fields: seq<(string, Node)>): (r: seq<Node>)
    ensures |r| == |fields| && forall i :: 0 <= i < |r| ==> r[i] == fields[i].1
  {
    if fields == [] then [] else [fields[0].1] + Values(fields[1..])
  }

  /** What a node contributes by itself: its truthy value under `key`, an array value element by element. */
  function Hit(n: Node, key: string): seq<Node> {
    var v := Get(n, key);
    if !Truthy(v) then [] else if v.value.Arr? then v.value.items else [v.value]
  }

  /** The values `findAll(n, key)` returns: the node's own hit, then those of its children in order. */
  function Found(n: Node, key: string): seq<Node>
    decreases n, 1, 0
  {
    Hit(n, key) + FoundFrom(n, 0, key)
  }

  /** The values found in the children of `n` from the `i`-th on. */
  function FoundFrom(n: Node, i: nat, key: string): seq<Node>
    requires i <= |Children(n)|
    decreases n, 0, |Children(n)| - i
  {
    if i == |Children(n)| then [] else Found(Children(n)[i], key) + FoundFrom(n, i + 1, key)
  }

  /** Every node of the tree, each before its descendants: an independent account of "at any depth". */
  function PreOrder(n: Node): (r: seq<Node>)
    ensures |r| > 0 && r[0] == n
    decreases n, 1, 0
  {
    [n] + PreOrderFrom(n, 0)
  }

  function PreOrderFrom(n: Node, i: nat): seq<Node>
    requires i <= |Children(n)|
    decreases n, 0, |Children(n)| - i
  {
    if i == |Children(n)| then [] else PreOrder(Children(n)[i]) + PreOrderFrom(n, i + 1)
  }

  /** The hits of a list of nodes, concatenated in list order. */
  function Hits(ts: seq<Node>, key: string): seq<Node> {
    if ts == [] then [] else Hit(ts[0], key) + Hits(ts[1..], key)
  }

  lemma {:induction false} HitsAppend(a: seq<Node>, b: seq<Node>, key: string)
    ensures Hits(a + b, key) == Hits(a, key) + Hits(b, key)
  {
    if a != [] {
      assert (a + b)[0] == a[0];
      assert (a + b)[1..] == a[1..] + b;
      HitsAppend(a[1..], b, key);
      calc {
        Hits(a + b, key);
        Hit(a[0], key) + Hits(a[1..] + b, key);
        Hit(a[0], key) + (Hits(a[1..], key) + Hits(b, key));
        (Hit(a[0], key) + Hits(a[1..], key)) + Hits(b, key);
      }
    } else {
      assert a + b == b;
    }
  }

  /**
   * `findAll` is the concatenation, in pre-order, of the hits of every node
   * of the tree: each node's own hit comes before anything found below it.
   */
  lemma {:induction false} FoundIsPreOrder(n: Node, key: string)
    ensures Found(n, key) == Hits(PreOrder(n), key)
    decreases n, 1, 0
  {
    FoundFromIsPreOrder(n, 0, key);
    assert ([n] + PreOrderFrom(n, 0))[1..] == PreOrderFrom(n, 0);
  }

  lemma {:induction false} FoundFromIsPreOrder(n: Node, i: nat, key: string)
    requires i <= |Children(n)|
    ensures FoundFrom(n, i, key) == Hits(PreOrderFrom(n, i), key)
    decreases n, 0, |Children(n)| - i
  {
    if i < |Children(n)| {
      FoundIsPreOrder(Children(n)[i], key);
      FoundFromIsPreOrder(n, i + 1, key);
      HitsAppend(PreOrder(Children(n)[i]), PreOrderFrom(n, i + 1), key);
    }
  }

  lemma {:induction false} HitsMember(ts: seq<Node>, key: string, x: Node)
    ensures x in Hits(ts, key) <==> exists t :: t in ts && x in Hit(t, key)
  {
    if ts != [] {
      HitsMember(ts[1..], key, x);
      assert forall t :: t in ts <==> t == ts[0] || t in ts[1..];
    }
  }

  lemma {:induction false} HitsEmpty(ts: seq<Node>, key: string)
    ensures Hits(ts, key) == [] <==> forall t :: t in ts ==> Hit(t, key) == []
  {
    if ts != [] {
      HitsEmpty(ts[1..], key);
      assert forall t :: t in ts <==> t == ts[0] || t in ts[1..];
    }
  }

  /** A value is returned exactly when some node at some depth holds it under `key`. */
  lemma FoundMember(n: Node, key: string, x: Node)
    ensures x in Found(n, key) <==> exists t :: t in PreOrder(n) && x in Hit(t, key)
  {
    FoundIsPreOrder(n, key);
    HitsMember(PreOrder(n), key, x);
  }

  /** Nothing is returned exactly when no node of the tree holds a non-empty hit under `key`. */
  lemma FoundEmpty(n: Node, key: string)
    ensures Found(n, key) == [] <==> forall t :: t in PreOrder(n) ==> Hit(t, key) == []
  {
    FoundIsPreOrder(n, key);
    HitsEmpty(PreOrder(n), key);
  }

  /** A scalar is not searched: it contributes nothing. */
  lemma FoundScalar(n: Node, key: string)
    requires !n.Arr? && !n.Obj?
    ensures Found(n, key) == []
  {
  }

  // ---------------------------------------------------------------------
  // The imperative walk

  /** `recursiveSearch(current)`: appends to `results` what the walk finds below `current`. */
  method Search(current: Node, key: string, results: seq<Node>) returns (out: seq<Node>)
    ensures out == results + Found(current, key)
    decreases current
  {
    out := results;
    if !current.Arr? && !current.Obj? {
      FoundScalar(current, key);
      return;
    }
    var v := Get(current, key);
    if Truthy(v) {
      var items := if v.value.Arr? then v.value.items else [v.value];
      out := out + items;
    }
    assert out == results + Hit(current, key);
    var values := Children(current);
    var i := 0;
    assert out + FoundFrom(current, i, key) == results + (Hit(current, key) + FoundFrom(current, 0, key));
    while i < |values|
      invariant 0 <= i <= |values|
      invariant out + FoundFrom(current, i, key) == results + Found(current, key)
    {
      ghost var before := out;
      out := Search(values[i], key, out);
      FoundFromStep(current, i, key, before);
      i := i + 1;
    }
  }

  /** One step of the walk over the children: the `i`-th child's results come next. */
  lemma FoundFromStep(n: Node, i: nat, key: string, before: seq<Node>)
    requires i < |Children(n)|
    ensures (before + Found(Children(n)[i], key)) + FoundFrom(n, i + 1, key) == before + FoundFrom(n, i, key)
  {
    var c := Found(Children(n)[i], key);
    var r := FoundFrom(n, i + 1, key);
    assert FoundFrom(n, i, key) == c + r;
    assert (before + c) + r == before + (c + r);
  }

  /** `findAll(obj, key)`. */
  method FindAll(obj: Node, key: string) returns (results: seq<Node>)
    ensures results == Found(obj, key)
  {
    results := Search(obj, key, []);
  }

  // ---------------------------------------------------------------------
  // Examples

  /** The results for a one-field object: its own hit, then what is found in the field's value. */
  lemma FoundOne(k: string, v: Node, key: string)
    ensures Found(Obj([(k, v)]), key) == Hit(Obj([(k, v)]), key) + Found(v, key)
  {
    var n := Obj([(k, v)]);
    assert Children(n) == [v];
    assert FoundFrom(n, 1, key) == [];
  }

  /** The results for a two-field object. */
  lemma FoundTwo(k1: string, v1: Node, k2: string, v2: Node, key: string)
    ensures Found(Obj([(k1, v1), (k2, v2)]), key) == Hit(Obj([(k1, v1), (k2, v2)]), key) + Found(v1, key) + Found(v2, key)
  {
    var n := Obj([(k1, v1), (k2, v2)]);
    assert Children(n) == [v1, v2];
    assert FoundFrom(n, 2, key) == [];
    assert FoundFrom(n, 1, key) == Found(v2, key);
    assert FoundFrom(n, 0, key) == Found(v1, key) + Found(v2, key);
  }

  /** A one-field object whose field is `key` and holds an object: that object is its hit. */
  lemma HitOne(key: string, v: Node)
    requires v.Obj?
    ensures Hit(Obj([(key, v)]), key) == [v]
  {
    assert Get(Obj([(key, v)]), key) == Some(v);
  }

  /** A one-field object whose field is not `key`: only the field's value is searched. */
  lemma FoundPassThrough(k: string, v: Node, key: string)
    requires k != key
    ensures Found(Obj([(k, v)]), key) == Found(v, key)
  {
    FoundOne(k, v, key);
    LookupFinds([(k, v)], key);
    assert Get(Obj([(k, v)]), key) == None;
  }

  /** A one-field object holding an object under `key`: that object, then what is found inside it. */
  lemma FoundKeyed(key: string, v: Node)
    requires v.Obj?
    ensures Found(Obj([(key, v)]), key) == [v] + Found(v, key)
  {
    FoundOne(key, v, key);
    HitOne(key, v);
  }

  /** Records at three different depths are all returned, outermost first. */
  lemma ThreeDepths(key: string, k1: string, k2: string, k3: string, a: Node, b: Node, c: Node)
    requires a.Obj? && b.Obj? && c.Obj?
    requires Found(a, key) == [] && Found(b, key) == [] && Found(c, key) == []
    requires k1 != key && k2 != key && k3 != key
    ensures
      var doc := Obj([(key, a), (k1, Obj([(key, b), (k2, Obj([(k3, Obj([(key, c)]))]))]))]);
      Found(doc, key) == [a, b, c]
  {
    var m := Obj([(k3, Obj([(key, c)]))]);
    FoundKeyed(key, c);
    FoundPassThrough(k3, Obj([(key, c)]), key);
    var l := Obj([(key, b), (k2, m)]);
    FoundKeyedThen(key, b, k2, m);
    FoundKeyedThen(key, a, k1, l);
  }

  /** An object holding a record under `key`, then one more field. */
  lemma FoundKeyedThen(key: string, b: Node, k: string, m: Node)
    requires b.Obj? && Found(b, key) == [] && k != key
    ensures Found(Obj([(key, b), (k, m)]), key) == [b] + Found(m, key)
  {
    var l := Obj([(key, b), (k, m)]);
    calc {
      Found(l, key);
    == { FoundTwo(key, b, k, m, key); }
      Hit(l, key) + Found(b, key) + Found(m, key);
    == { assert Get(l, key) == Some(b); }
      [b] + [] + Found(m, key);
    == { assert [b] + [] == [b]; }
      [b] + Found(m, key);
    }
  }

  /** A record nested inside a found record is returned too, after it. */
  lemma NestedHit(key: string, inner: Node)
    requires inner.Obj? && Found(inner, key) == []
    ensures
      var outer := Obj([(key, inner)]);
      Found(Obj([(key, outer)]), key) == [outer, inner]
  {
    var outer := Obj([(key, inner)]);
    calc {
      Found(Obj([(key, outer)]), key);
    == { FoundKeyed(key, outer); }
      [outer] + Found(outer, key);
    == { FoundKeyed(key, inner); }
      [outer] + ([inner] + []);
    == { assert [inner] + [] == [inner]; }
      [outer, inner];
    }
  }

  /** An array value is expanded element by element, whatever the elements are. */
  lemma ArrayExpanded(x: Node, y: Node)
    requires !x.Arr? && !x.Obj? && !y.Arr? && !y.Obj?
    ensures Found(Obj([("client", Arr([x, y]))]), "client") == [x, y]
  {
    FoundOne("client", Arr([x, y]), "client");
    var a := Arr([x, y]);
    assert Get(Obj([("client", a)]), "client") == Some(a);
    assert Hit(Obj([("client", a)]), "client") == [x, y];
    assert Children(a) == [x, y];
    FoundScalar(x, "client");
    FoundScalar(y, "client");
    assert FoundFrom(a, 2, "client") == [];
    assert FoundFrom(a, 1, "client") == [];
    assert FoundFrom(a, 0, "client") == [];
    assert Hit(a, "client") == [];
  }
}
