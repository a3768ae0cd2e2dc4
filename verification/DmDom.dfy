/** The tree a DOM node stands for, and how it changes as the DOM grows. */
module DmDom {
  import opened Common
  import opened DmXml
  import opened DmMachine

  ghost function TreeOf(h: Heap, i: nat): Tree
    requires Shape(h) && i < |h|
    decreases |h| - i, 1
  {
    Tree(h[i].tag, h[i].text, KidTrees(h, i))
  }

  ghost function KidTrees(h: Heap, i: nat): (r: seq<Tree>)
    requires Shape(h) && i < |h|
    ensures |r| == |h[i].children|
    decreases |h| - i, 0
  {
    assert NodeShape(h, i);
    seq(|h[i].children|, k requires 0 <= k < |h[i].children| => TreeOf(h, h[i].children[k]))
  }

  /** `x` is `y` or stands above it. */
  ghost predicate Above(h: Heap, x: nat, y: nat)
    requires Shape(h) && y < |h|
  {
    assert NodeShape(h, y);
    x == y || (h[y].parent.Some? && Above(h, x, h[y].parent.value))
  }

  lemma {:induction false} AboveNotLater(h: Heap, x: nat, y: nat)
    requires Shape(h) && y < |h| && Above(h, x, y)
    ensures x <= y
  {
    assert NodeShape(h, y);
    if x != y {
      AboveNotLater(h, x, h[y].parent.value);
    }
  }

  lemma {:induction false} AboveStep(h: Heap, x: nat, c: nat, y: nat)
    requires Shape(h) && c < |h| && y < |h| && h[c].parent == Some(x) && Above(h, c, y)
    ensures Above(h, x, y)
  {
    assert NodeShape(h, y);
    if c == y {
      assert Above(h, x, x);
    } else {
      AboveStep(h, x, c, h[y].parent.value);
    }
  }

  /** `h2` is `h1` after more nodes were made: old nodes keep everything but their child lists,
      and only the one at `p` may have gained children. */
  ghost predicate Extends(h1: Heap, h2: Heap, p: Option<nat>) {
    && |h1| <= |h2|
    && forall i :: 0 <= i < |h1| ==> ExtendsAt(h1, h2, p, i)
  }

  ghost predicate ExtendsAt(h1: Heap, h2: Heap, p: Option<nat>, i: nat)
    requires i < |h1| <= |h2|
  {
    && h2[i] == h1[i].(children := h2[i].children)
    && (p != Some(i) ==> h2[i] == h1[i])
    && h1[i].children <= h2[i].children
  }

  lemma {:induction false} ExtendsThen(h1: Heap, h2: Heap, h3: Heap, p: Option<nat>, q: Option<nat>)
    requires Extends(h1, h2, p) && Extends(h2, h3, q)
    requires q.Some? ==> q == p || q.value >= |h1|
    ensures Extends(h1, h3, p)
  {
    forall i | 0 <= i < |h1|
      ensures ExtendsAt(h1, h3, p, i)
    {
      assert ExtendsAt(h1, h2, p, i) && ExtendsAt(h2, h3, q, i);
    }
  }

  /** What does not stand above the growing node keeps its tree. */
  lemma {:induction false} Frame(h1: Heap, h2: Heap, p: Option<nat>, x: nat)
    requires Shape(h1) && Shape(h2) && Extends(h1, h2, p) && x < |h1|
    requires p.Some? ==> p.value < |h1| && !Above(h1, x, p.value)
    ensures TreeOf(h2, x) == TreeOf(h1, x)
    ensures KidTrees(h2, x) == KidTrees(h1, x)
    decreases |h1| - x
  {
    assert NodeShape(h1, x) && ExtendsAt(h1, h2, p, x);
    forall k | 0 <= k < |h1[x].children|
      ensures KidTrees(h2, x)[k] == KidTrees(h1, x)[k]
    {
      var c := h1[x].children[k];
      if p.Some? && Above(h1, c, p.value) {
        AboveStep(h1, x, c, p.value);
      }
      Frame(h1, h2, p, c);
    }
  }

  /** When `p` gains the child `c` at its end, so does its list of trees. */
  lemma {:induction false} GainChild(h1: Heap, h2: Heap, p: nat, c: nat)
    requires Shape(h1) && Shape(h2) && p < |h1| && Extends(h1, h2, Some(p))
    requires c < |h2| && h2[p].children == h1[p].children + [c]
    ensures KidTrees(h2, p) == KidTrees(h1, p) + [TreeOf(h2, c)]
  {
    forall k | 0 <= k < |h1[p].children|
      ensures KidTrees(h2, p)[k] == KidTrees(h1, p)[k]
    {
      OlderChildKept(h1, h2, p, k);
    }
  }

  lemma {:induction false} OlderChildKept(h1: Heap, h2: Heap, p: nat, k: nat)
    requires Shape(h1) && Shape(h2) && p < |h1| && Extends(h1, h2, Some(p)) && k < |h1[p].children|
    ensures k < |h2[p].children| && KidTrees(h2, p)[k] == KidTrees(h1, p)[k]
  {
    assert NodeShape(h1, p) && ExtendsAt(h1, h2, Some(p), p);
    var x := h1[p].children[k];
    if Above(h1, x, p) {
      AboveNotLater(h1, x, p);
      assert false;
    }
    Frame(h1, h2, Some(p), x);
  }

  /** When a child `f` of `p` grows, the trees of the other children of `p` stay. */
  lemma {:induction false} ChildGrew(h1: Heap, h2: Heap, p: nat, idx: nat)
    requires Shape(h1) && Shape(h2) && p < |h1| && idx < |h1[p].children| && h1[p].children[idx] < |h1|
    requires Extends(h1, h2, Some(h1[p].children[idx]))
    ensures |h2[p].children| == |h1[p].children|
    ensures KidTrees(h2, p) == KidTrees(h1, p)[idx := TreeOf(h2, h1[p].children[idx])]
  {
    var f := h1[p].children[idx];
    assert NodeShape(h1, p) && NodeShape(h1, f) && ExtendsAt(h1, h2, Some(f), p);
    forall k | 0 <= k < |h1[p].children| && k != idx
      ensures KidTrees(h2, p)[k] == KidTrees(h1, p)[k]
    {
      var x := h1[p].children[k];
      assert x != f by {
        if k < idx { assert h1[p].children[k] < h1[p].children[idx]; }
        else { assert h1[p].children[idx] < h1[p].children[k]; }
      }
      if Above(h1, x, f) {
        AboveNotLater(h1, x, p);
        assert false;
      }
      Frame(h1, h2, Some(f), x);
    }
  }

  // ----- node creation, seen as trees -----

  function Leaves(fields: seq<Field>): (r: seq<Tree>)
    ensures |r| == |fields|
    ensures forall k :: 0 <= k < |fields| ==> r[k] == Leaf(fields[k].tag, fields[k].text)
  {
    seq(|fields|, k requires 0 <= k < |fields| => Leaf(fields[k].tag, fields[k].text))
  }

  lemma {:induction false} RecAdded(h: Heap, parent: Option<nat>, tag: string, text: Option<string>, dataSize: nat)
    requires Shape(h) && (parent.Some? ==> parent.value < |h|)
    requires dataSize == if text.Some? then |text.value| else 0
    ensures var r := AddRec(h, parent, tag, text, dataSize);
            Shape(r) && Extends(h, r, parent) && |r| == |h| + 1
            && TreeOf(r, |h|) == Tree(tag, text, []) && r[|h|].parent == parent
            && (parent.Some? ==> r[parent.value].children == h[parent.value].children + [|h|])
  {
    var r := AddRec(h, parent, tag, text, dataSize);
    AddRecShape(h, parent, tag, text, dataSize);
    assert KidTrees(r, |h|) == [];
  }

  lemma {:induction false} FieldsAdded(h: Heap, parent: Option<nat>, fields: seq<Field>)
    requires Shape(h) && (parent.Some? ==> parent.value < |h|)
    ensures var r := AddFields(h, parent, fields);
            Shape(r) && Extends(h, r, parent)
            && (parent.Some? ==> KidTrees(r, parent.value) == KidTrees(h, parent.value) + Leaves(fields))
  {
    AddFieldsShape(h, parent, fields);
    if fields == [] {
      if parent.Some? {
        assert KidTrees(h, parent.value) + Leaves(fields) == KidTrees(h, parent.value);
      }
    } else {
      var f := fields[|fields| - 1];
      var init := fields[..|fields| - 1];
      FieldsAdded(h, parent, init);
      var m := AddFields(h, parent, init);
      assert f.text[..|f.text|] == f.text;
      RecAdded(m, parent, f.tag, Some(f.text), |f.text|);
      ExtendsThen(h, m, AddFields(h, parent, fields), parent, parent);
      if parent.Some? {
        GainChild(m, AddFields(h, parent, fields), parent.value, |m|);
        assert Leaves(fields) == Leaves(init) + [Leaf(f.tag, f.text)];
      }
    }
  }

  lemma {:induction false} FieldsConcat(h: Heap, parent: Option<nat>, a: seq<Field>, b: seq<Field>)
    requires parent.Some? ==> parent.value < |h|
    ensures AddFields(h, parent, a + b) == AddFields(AddFields(h, parent, a), parent, b)
  {
    if b == [] {
      assert a + b == a;
    } else {
      assert (a + b)[..|a + b| - 1] == a + b[..|b| - 1];
      FieldsConcat(h, parent, a, b[..|b| - 1]);
    }
  }
}
