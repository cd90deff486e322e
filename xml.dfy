/** The semi-structured record trees returned by the public-records service,
    reduced to what the extraction code reads: the record's root element, its
    `field` elements in document order (the targets of the label locator
    .//field[@label='...']) and, for the path locators, the elements each path
    selects. The XPath evaluation itself is not modelled: a path is a key. */
module Xml {
  import opened Outcomes

  /** An element: its label attribute, its text (None for a self-closed
      element) and its attributes. */
  datatype Element = Element(fieldLabel: string, text: Option<string>, attributes: map<string, string>)

  datatype Tree = Tree(root: Element, fields: seq<Element>, paths: map<string, seq<Element>>)

  /** FieldLabel(l) is .//field[@label='l'], Path(p) an explicit path such as
      ./disp_fld1, Root the path "." (the record element itself). */
  datatype Locator = FieldLabel(name: string) | Path(path: string) | Root

  /** The index of the first field carrying the label. */
  function FirstLabelled(fields: seq<Element>, name: string): (r: Option<nat>)
    ensures r.Some? ==> r.value < |fields| && fields[r.value].fieldLabel == name
    ensures r.Some? ==> forall j :: 0 <= j < r.value ==> fields[j].fieldLabel != name
    ensures r.None? ==> forall j :: 0 <= j < |fields| ==> fields[j].fieldLabel != name
  {
    if fields == [] then None
    else if fields[0].fieldLabel == name then Some(0)
    else match FirstLabelled(fields[1..], name)
      case None => None
      case Some(i) => Some(i + 1)
  }

  /** The fields carrying the label, in document order. */
  function Labelled(fields: seq<Element>, name: string): (r: seq<Element>)
    ensures forall e :: e in r ==> e in fields && e.fieldLabel == name
    ensures forall e :: e in fields && e.fieldLabel == name ==> e in r
    ensures r != [] <==> FirstLabelled(fields, name).Some?
    ensures r != [] ==> r[0] == fields[FirstLabelled(fields, name).value]
  {
    if fields == [] then []
    else if fields[0].fieldLabel == name then [fields[0]] + Labelled(fields[1..], name)
    else Labelled(fields[1..], name)
  }

  /** root.findall(locator). */
  function FindAll(t: Tree, loc: Locator): seq<Element> {
    match loc
    case FieldLabel(l) => Labelled(t.fields, l)
    case Path(p) => if p in t.paths then t.paths[p] else []
    case Root => [t.root]
  }

  /** element.get(prop) when a property is named, element.text otherwise. */
  function Read(e: Element, prop: Option<string>): Option<string> {
    match prop
    case Some(p) => if p in e.attributes then Some(e.attributes[p]) else None
    case None => e.text
  }

  /** The value a mapping rule reads: from the first element found only. */
  function FirstValue(t: Tree, loc: Locator, prop: Option<string>): Option<string> {
    var found := FindAll(t, loc);
    if found == [] then None else Read(found[0], prop)
  }
}
