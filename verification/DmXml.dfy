/** Source documents of the DM pack generator and the DOM trees its runtime builds. */
module DmXml {
  import opened Common

  /** An element as the XML parser hands it over: `text` is None when the element holds no text
      before its first child. Attributes are read by nobody and are not kept. */
  datatype Element = Element(tag: string, text: Option<string>, children: seq<Element>)

  /** What a consumer of the DOM sees of a node and everything below it. */
  datatype Tree = Tree(tag: string, text: Option<string>, children: seq<Tree>)

  function Leaf(tag: string, text: string): Tree {
    Tree(tag, Some(text), [])
  }

  predicate StandsAt(s: string, part: string, i: nat) {
    i + |part| <= |s| && s[i..i + |part|] == part
  }

  /** Python's truth value of an element text. */
  predicate Truthy(text: Option<string>) {
    text.Some? && text.value != ""
  }

  /** Python's `%s` of an element text. */
  function Shown(text: Option<string>): string {
    if text.Some? then text.value else "None"
  }

  /** The tree `t` with more children after the ones it has. */
  function Grow(t: Tree, more: seq<Tree>): Tree {
    t.(children := t.children + more)
  }
}
