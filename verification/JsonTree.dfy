/** JSON values as decoded into memory: objects without order, arrays, scalars. */
module JsonTree {
  import opened Common

  /** The contents of an object or of an array of `V`. */
  datatype Content<+V> = Fields(m: map<string, V>) | Items(s: seq<V>)

  datatype Tree =
    | Null
    | Bool(b: bool)
    | Number(raw: string)
    | Text(s: string)
    | Branch(content: Content<Tree>)

  predicate IsObject(t: Tree) {
    t.Branch? && t.content.Fields?
  }

  predicate IsArray(t: Tree) {
    t.Branch? && t.content.Items?
  }
}
