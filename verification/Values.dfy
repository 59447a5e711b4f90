/**
 Runtime values. Strings are interned, so a string value is its content (module Interning proves that
 pointer equality then agrees with content equality). A function object is the function it was compiled
 from, and a closure without captured variables is its function object.
 */
module Values {
  import opened Syntax

  datatype Value =
    | Null
    | Bool(b: bool)
    | Num(d: Double)
    | Text(s: seq<Byte>)
    | Ref(address: nat)        // an array or a map on the heap
    | Native(id: nat)
    | Closure(f: Function)
    | FunctionObj(f: Function, upvalues: Byte) // only ever a constant of a chunk

  datatype Object =
    | ArrayObj(items: seq<Value>)
    | MapObj(entries: map<seq<Byte>, Value>)

  type Heap = seq<Object>
}
