/** The database content as a JSON value, and the three edits as pure functions on it.

    A node of the tree is described by an `Option<Json>`: `None` when the path holds no value. */
module JsonTree {
  import opened Options
  import opened Paths

  datatype Json =
    | Null
    | Bool(b: bool)
    | Num(n: real)
    | Str(s: string)
    | Arr(elems: seq<Json>)
    | Obj(fields: map<string, Json>)

  type Fields = map<string, Json>

  datatype Edit = Put(value: Json) | Patch(fields: Fields) | Delete

  datatype Op = Op(path: Path, edit: Edit)

  /** The members of a node; a node that is absent or not an object has none. */
  function FieldsOf(v: Option<Json>): Fields {
    if v.Some? && v.value.Obj? then v.value.fields else map[]
  }

  function Child(v: Option<Json>, k: string): Option<Json> {
    var m := FieldsOf(v);
    if k in m then Some(m[k]) else None
  }

  function WithChild(m: Fields, k: string, c: Option<Json>): Fields {
    match c
    case None => m - {k}
    case Some(v) => m[k := v]
  }

  /** The node at path `p` below `v`. */
  function Lookup(v: Option<Json>, p: Path): Option<Json>
    decreases |p|
  {
    if p == [] then v else Lookup(Child(v, p[0]), p[1..])
  }

  /** The node `v` after edit `e` at path `p` below it.  Put and Patch turn whatever stands on the way
      into an object; Delete stops at the first node on the way that is not one. */
  function ApplyAt(e: Edit, p: Path, v: Option<Json>): Option<Json>
    decreases |p|
  {
    if p == [] then
      match e
      case Put(w) => Some(w)
      case Patch(fs) => Some(Obj(FieldsOf(v) + fs))
      case Delete => None
    else if e.Delete? && !(v.Some? && v.value.Obj?) then
      v
    else
      Some(Obj(WithChild(FieldsOf(v), p[0], ApplyAt(e, p[1..], Child(v, p[0])))))
  }

  /** The root object after `op`; the root is always an object, so a root edit that leaves none leaves `{}`. */
  function Apply(op: Op, root: Fields): Fields {
    FieldsOf(ApplyAt(op.edit, op.path, Some(Obj(root))))
  }

  function Run(ops: seq<Op>, root: Fields): Fields {
    if ops == [] then root else Apply(ops[|ops| - 1], Run(ops[..|ops| - 1], root))
  }

  /** What reading path `p` finds. */
  function Fetch(root: Fields, p: Path): Option<Json> {
    Lookup(Some(Obj(root)), p)
  }

  /** The node at `q` after edit `e` at `p`, from the edit and the node that stood at `q` alone. */
  function Project(e: Edit, p: Path, q: Path, x: Option<Json>): Option<Json>
    decreases |q|
  {
    if q == [] then
      ApplyAt(e, p, x)
    else if p == [] then
      match e
      case Put(w) => Lookup(Some(w), q)
      case Patch(fs) => if q[0] in fs then Lookup(Some(fs[q[0]]), q[1..]) else x
      case Delete => None
    else if p[0] == q[0] then
      Project(e, p[1..], q[1..], x)
    else
      x
  }
}
