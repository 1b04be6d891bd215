/** The part of LINQ to XML that the Delphi executors use to read a `.dproj` project file:
    an element tree with qualified names, `Elements(name)`, `Element(name)` and `Value`,
    and the lookup of the project's `ProjectVersion` property. */
module Xml {
  import opened Wrappers

  datatype XName = XName(namespace: string, localName: string)

  datatype XNode = XText(text: string) | XChild(element: XElement)

  datatype XElement = XElement(name: XName, nodes: seq<XNode>)

  /** A loaded document; `XDocument.Load` fails on a file without a root element, but the
      executors still test the root for null, so the model keeps that case. */
  datatype XDocument = XDocument(root: Option<XElement>)

  /** `XElement.Value`: the text of the element and all its descendants, in document order. */
  function Value(e: XElement): string
    decreases e, 1, 0
  {
    ValueFrom(e, 0)
  }

  /** The text of the nodes of `e` from position `i` on. */
  function ValueFrom(e: XElement, i: nat): string
    decreases e, 0, |e.nodes| - i
  {
    if i >= |e.nodes| then ""
    else
      (match e.nodes[i]
       case XText(t) => t
       case XChild(c) => Value(c))
      + ValueFrom(e, i + 1)
  }

  /** `Element(name)`: the first child element with the given name, if any. */
  function FirstElement(nodes: seq<XNode>, name: XName): (r: Option<XElement>)
    ensures r.Some? ==> XChild(r.value) in nodes && r.value.name == name
    ensures r.None? <==> forall i :: 0 <= i < |nodes| ==> !(nodes[i].XChild? && nodes[i].element.name == name)
  {
    if nodes == [] then None
    else if nodes[0].XChild? && nodes[0].element.name == name then Some(nodes[0].element)
    else FirstElement(nodes[1..], name)
  }

  /** Looking past a prefix that holds no element of that name finds the first one after it. */
  lemma {:induction false} FirstElementAfter(pre: seq<XNode>, e: XElement, post: seq<XNode>)
    requires forall i :: 0 <= i < |pre| ==> !(pre[i].XChild? && pre[i].element.name == e.name)
    ensures FirstElement(pre + [XChild(e)] + post, e.name) == Some(e)
  {
    if pre != [] {
      assert (pre + [XChild(e)] + post)[1..] == pre[1..] + [XChild(e)] + post;
      FirstElementAfter(pre[1..], e, post);
    }
  }

  /** The `ProjectVersion` of a project file: the value of the `ProjectVersion` element of
      the root's first `PropertyGroup`, both looked up in the root's namespace. `None` as
      the document stands for a load that threw; every missing piece gives `None`. */
  function ProjectVersion(doc: Option<XDocument>): (v: Option<string>)
    ensures doc.None? || doc.value.root.None? ==> v.None?
    ensures doc.Some? && doc.value.root.Some? ==>
      var root := doc.value.root.value;
      var group := FirstElement(root.nodes, XName(root.name.namespace, "PropertyGroup"));
      group.None? || FirstElement(group.value.nodes, XName(root.name.namespace, "ProjectVersion")).None? ==> v.None?
  {
    if doc.None? || doc.value.root.None? then None
    else
      var root := doc.value.root.value;
      var ns := root.name.namespace;
      match FirstElement(root.nodes, XName(ns, "PropertyGroup"))
      case None => None
      case Some(group) =>
        match FirstElement(group.nodes, XName(ns, "ProjectVersion"))
        case None => None
        case Some(version) => Some(Value(version))
  }

  /** In a project file laid out as MSBuild writes it, the lookup finds the version text:
      the root holds, after elements of other names, a `PropertyGroup` whose children
      hold, after elements of other names, `<ProjectVersion>v</ProjectVersion>`. */
  lemma ProjectVersionFound(ns: string, rootName: string, before: seq<XNode>, after: seq<XNode>,
                            groupBefore: seq<XNode>, groupAfter: seq<XNode>, v: string)
    requires forall i :: 0 <= i < |before| ==> !(before[i].XChild? && before[i].element.name == XName(ns, "PropertyGroup"))
    requires forall i :: 0 <= i < |groupBefore| ==> !(groupBefore[i].XChild? && groupBefore[i].element.name == XName(ns, "ProjectVersion"))
    ensures
      var version := XElement(XName(ns, "ProjectVersion"), [XText(v)]);
      var group := XElement(XName(ns, "PropertyGroup"), groupBefore + [XChild(version)] + groupAfter);
      var root := XElement(XName(ns, rootName), before + [XChild(group)] + after);
      ProjectVersion(Some(XDocument(Some(root)))) == Some(v)
  {
    var version := XElement(XName(ns, "ProjectVersion"), [XText(v)]);
    var group := XElement(XName(ns, "PropertyGroup"), groupBefore + [XChild(version)] + groupAfter);
    var root := XElement(XName(ns, rootName), before + [XChild(group)] + after);
    FirstElementAfter(before, group, after);
    FirstElementAfter(groupBefore, version, groupAfter);
    assert Value(version) == v + ValueFrom(version, 1) == v;
    assert FirstElement(root.nodes, XName(ns, "PropertyGroup")) == Some(group);
    assert FirstElement(group.nodes, XName(ns, "ProjectVersion")) == Some(version);
  }

  /** Only the first `PropertyGroup` is consulted: when it has no `ProjectVersion`, the
      lookup gives `None` whatever later groups hold. */
  lemma {:induction false} OnlyFirstGroupConsulted(ns: string, rootName: string, group: XElement, after: seq<XNode>)
    requires group.name == XName(ns, "PropertyGroup")
    requires FirstElement(group.nodes, XName(ns, "ProjectVersion")).None?
    ensures ProjectVersion(Some(XDocument(Some(XElement(XName(ns, rootName), [XChild(group)] + after))))) == None
  {
    FirstElementAfter([], group, after);
    assert [] + [XChild(group)] + after == [XChild(group)] + after;
  }
}
