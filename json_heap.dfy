/**
 * The values `JSON.parse` produces, as a heap of containers. An object or
 * an array is a `Container` whose entries are listed in `Object.keys`
 * order (an array's keys are its index strings "0", "1", ...); a value
 * refers to a container by its address, so structures may share
 * containers or contain cycles, which is what the visited set of the
 * deep search guards against.
 */
module JsonHeap {
  import opened JsNumber

  datatype Value = Null | Bool(b: bool) | Num(n: JsNum) | Str(s: string) | Ref(id: nat)

  datatype Entry = Entry(key: string, val: Value)

  datatype Container = Container(entries: seq<Entry>)

  type Heap = map<nat, Container>

  /** What `JSON.parse` returns: a root value and the containers it reaches. */
  datatype Parsed = Parsed(heap: Heap, root: Value)

  /** `typeof v === "object"` for a non-null `v` that denotes a container of `h`. */
  predicate IsContainer(h: Heap, v: Value) {
    v.Ref? && v.id in h
  }
}
