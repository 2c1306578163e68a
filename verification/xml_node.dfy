/** The document tree the loader walks. Parsing the file into this tree is
    done by a collaborator and is not modelled: the tree is an input. */
module XmlNode {
  import opened Geometry

  datatype Option<T> = None | Some(value: T)

  /** One element: its tag name and its attributes as raw text. */
  datatype Node = Node(name: string, attributes: map<string, string>)

  /** A parsed file: the root element's name and its child elements in
      document order. */
  datatype Document = Document(name: string, nodes: seq<Node>)

  /** The typed attribute readers of the tree service whose parsing code is
      not part of this model: `vector` reads an attribute as a literal
      "x,y,z" point, `flag` turns the text of a present attribute into a
      boolean. */
  datatype Readers = Readers(vector: (Node, string) -> Vec3, flag: string -> bool)

  /** The text of an attribute read into an empty string: the string stays
      empty when the attribute is absent. */
  function Attribute(node: Node, attr: string): (s: string)
    ensures s != "" ==> attr in node.attributes
  {
    if attr in node.attributes then node.attributes[attr] else ""
  }

  /** A boolean attribute read into a variable holding `default`: the
      variable is overwritten only when the attribute is present. */
  function ReadFlag(node: Node, attr: string, default: bool, r: Readers): (b: bool)
    ensures attr !in node.attributes ==> b == default
  {
    if attr in node.attributes then r.flag(node.attributes[attr]) else default
  }
}
