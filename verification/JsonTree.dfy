/** JSON values as the program's `json` module sees them after parsing (floats do not occur in these records). */
module JsonTree {
  /** JSON values whose objects have members named by `K`. */
  datatype Tree<K(==)> =
    | Null
    | Bool(b: bool)
    | Num(n: int)
    | Str(s: string)
    | Arr(items: seq<Tree<K>>)
    | Obj(fields: map<K, Tree<K>>)
}
