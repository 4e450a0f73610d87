/** The parsed-page model the extractors work on: an abstract HTML tree and the queries of
    the `select` crate (`find` with `Name`, `Attr`, `Class`, `Text` and `And` predicates,
    `attr`, `as_text`, `inner_html`).  Parsing markup into the tree is not modelled. */
module Html {
  import opened Common
  import opened Strings

  /** An element (tag name, attributes in source order, children) or a text node. */
  datatype Node =
    | Element(name: string, attrs: seq<(string, string)>, children: seq<Node>)
    | Text(text: string)

  /** A parsed page: its top-level nodes, in document order. */
  datatype Document = Document(roots: seq<Node>)

  /** The predicates of `select::predicate`. */
  datatype Selector =
    | Name(tag: string)                  // an element with this tag name
    | Attr(key: string, value: string)   // an element whose attribute `key` is exactly `value`
    | Class(token: string)               // an element whose `class` has this whitespace-separated token
    | IsText                             // a text node (`predicate::Text`)
    | And(left: Selector, right: Selector)

  /** The value of the first attribute named `key`. */
  function Lookup(attrs: seq<(string, string)>, key: string): (r: Option<string>)
    ensures r.None? <==> forall i :: 0 <= i < |attrs| ==> attrs[i].0 != key
    ensures r.Some? ==> exists i :: 0 <= i < |attrs| && attrs[i] == (key, r.value)
                                    && forall j :: 0 <= j < i ==> attrs[j].0 != key
  {
    if attrs == [] then None
    else if attrs[0].0 == key then Some(attrs[0].1)
    else
      var r := Lookup(attrs[1..], key);
      assert forall i :: 1 <= i < |attrs| ==> attrs[i] == attrs[1..][i - 1];
      r
  }

  /** `Node::attr`: text nodes have no attributes. */
  function AttrOf(n: Node, key: string): Option<string> {
    match n
    case Element(_, attrs, _) => Lookup(attrs, key)
    case Text(_) => None
  }

  predicate Matches(n: Node, p: Selector) {
    match p
    case Name(tag) => n.Element? && n.name == tag
    case Attr(key, value) => AttrOf(n, key) == Some(value)
    case Class(token) =>
      (match AttrOf(n, "class")
       case Some(classes) => token in SplitWhitespace(classes)
       case None => false)
    case IsText => n.Text?
    case And(left, right) => Matches(n, left) && Matches(n, right)
  }

  /** The nodes strictly below `n`, in document (pre-)order. */
  function Descendants(n: Node): seq<Node> {
    match n
    case Element(_, _, children) => Forest(children)
    case Text(_) => []
  }

  /** Each node of `ns` followed by its descendants, in document order. */
  function Forest(ns: seq<Node>): seq<Node> {
    if ns == [] then [] else [ns[0]] + Descendants(ns[0]) + Forest(ns[1..])
  }

  /** The nodes of `ns` that match `p`, in order. */
  function Filter(ns: seq<Node>, p: Selector): (r: seq<Node>)
    ensures |r| <= |ns|
    ensures forall x :: x in r <==> x in ns && Matches(x, p)
  {
    if ns == [] then []
    else
      var rest := Filter(ns[1..], p);
      assert forall x :: x in ns <==> x == ns[0] || x in ns[1..];
      if Matches(ns[0], p) then [ns[0]] + rest else rest
  }

  lemma {:induction false} FilterAppend(a: seq<Node>, b: seq<Node>, p: Selector)
    ensures Filter(a + b, p) == Filter(a, p) + Filter(b, p)
  {
    if a == [] {
      assert a + b == b;
    } else {
      assert (a + b)[1..] == a[1..] + b;
      FilterAppend(a[1..], b, p);
    }
  }

  /** `Node::find(p)`: the descendants of `n` that match `p`, in document order. */
  function Find(n: Node, p: Selector): seq<Node> {
    Filter(Descendants(n), p)
  }

  /** `ns.flat_map(|node| node.find(p))`. */
  function FindAll(ns: seq<Node>, p: Selector): (r: seq<Node>)
    ensures forall x :: x in r <==> exists n :: n in ns && x in Find(n, p)
  {
    if ns == [] then []
    else
      var r := Find(ns[0], p) + FindAll(ns[1..], p);
      assert forall n :: n in ns <==> n == ns[0] || n in ns[1..];
      r
  }

  lemma {:induction false} FindAllAppend(a: seq<Node>, b: seq<Node>, p: Selector)
    ensures FindAll(a + b, p) == FindAll(a, p) + FindAll(b, p)
  {
    if a == [] {
      assert a + b == b;
    } else {
      assert (a + b)[1..] == a[1..] + b;
      FindAllAppend(a[1..], b, p);
    }
  }

  /** `Document::find(p)`: every node of the page that matches `p`, in document order. */
  function FindInDocument(d: Document, p: Selector): seq<Node> {
    Filter(Forest(d.roots), p)
  }

  /** `filter_map(|node| node.as_text())`: the contents of the text nodes, in order. */
  function TextsOf(ns: seq<Node>): (r: seq<string>)
    ensures |r| <= |ns|
    ensures forall t :: t in r <==> Text(t) in ns
  {
    if ns == [] then []
    else
      var rest := TextsOf(ns[1..]);
      assert forall x :: x in ns <==> x == ns[0] || x in ns[1..];
      match ns[0]
      case Text(t) => [t] + rest
      case Element(_, _, _) => rest
  }

  lemma {:induction false} TextsOfAppend(a: seq<Node>, b: seq<Node>)
    ensures TextsOf(a + b) == TextsOf(a) + TextsOf(b)
  {
    if a == [] {
      assert a + b == b;
    } else {
      assert (a + b)[1..] == a[1..] + b;
      TextsOfAppend(a[1..], b);
    }
  }

  /** `flat_map(|node| node.find(Text)).filter_map(|node| node.as_text())`. */
  function Texts(ns: seq<Node>): seq<string> {
    TextsOf(FindAll(ns, IsText))
  }

  /** The texts below two runs of nodes are those below the first run, then those below
      the second. */
  lemma TextsAppend(a: seq<Node>, b: seq<Node>)
    ensures Texts(a + b) == Texts(a) + Texts(b)
  {
    FindAllAppend(a, b, IsText);
    TextsOfAppend(FindAll(a, IsText), FindAll(b, IsText));
  }

  /** `map(|text| text.trim()).collect::<String>()` over the texts below `ns`. */
  function TrimmedText(ns: seq<Node>): string {
    Concat(TrimAll(Texts(ns)))
  }

  // ---- `Node::inner_html`: the children serialized as html5ever writes HTML ----

  const VoidElements: set<string> :=
    {"area", "base", "basefont", "bgsound", "br", "col", "embed", "frame", "hr", "img",
     "input", "keygen", "link", "meta", "param", "source", "track", "wbr"}

  /** Elements whose text children are written without escaping (scripting enabled). */
  const RawTextElements: set<string> :=
    {"style", "script", "xmp", "iframe", "noembed", "noframes", "plaintext", "noscript"}

  function EscapeChar(c: char, attrMode: bool): string {
    if c == '&' then "&amp;"
    else if c == '\U{A0}' then "&nbsp;"
    else if attrMode && c == '"' then "&quot;"
    else if !attrMode && c == '<' then "&lt;"
    else if !attrMode && c == '>' then "&gt;"
    else [c]
  }

  function Escape(s: string, attrMode: bool): string {
    if s == [] then [] else EscapeChar(s[0], attrMode) + Escape(s[1..], attrMode)
  }

  function SerializeAttrs(attrs: seq<(string, string)>): string {
    if attrs == [] then []
    else " " + attrs[0].0 + "=\"" + Escape(attrs[0].1, true) + "\"" + SerializeAttrs(attrs[1..])
  }

  /** One node, given the tag of the element it sits in (None at the top of the fragment). */
  function SerializeNode(n: Node, parent: Option<string>): string {
    match n
    case Text(t) =>
      if parent.Some? && parent.value in RawTextElements then t else Escape(t, false)
    case Element(name, attrs, children) =>
      "<" + name + SerializeAttrs(attrs) + ">"
      + if name in VoidElements then [] else SerializeForest(children, name) + "</" + name + ">"
  }

  function SerializeForest(ns: seq<Node>, parent: string): string {
    if ns == [] then [] else SerializeNode(ns[0], Some(parent)) + SerializeForest(ns[1..], parent)
  }

  /** `Node::inner_html`: the children of `n`, serialized. */
  function InnerHtml(n: Node): string {
    match n
    case Element(_, _, children) => SerializeChildren(children)
    case Text(_) => []
  }

  function SerializeChildren(ns: seq<Node>): string {
    if ns == [] then [] else SerializeNode(ns[0], None) + SerializeChildren(ns[1..])
  }
}
