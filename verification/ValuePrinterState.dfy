/**
  What `ToSource` of builtins/web/console.cpp prints: a value is laid out as pieces of text and
  further values, and an object met again is not laid out a second time.
*/
module ValuePrinterState {
  import opened Wrappers

  type Obj = nat

  datatype Value =
    | Undefined
    | Null
    | String(chars: string)
    | Other(source: string)      // what `JS_ValueToSource` gives for a number, a boolean, a symbol
    | Ref(obj: Obj)

  datatype Key = Name(text: string) | Symbol(source: string)

  datatype Property = Property(key: Key, own: bool, accessor: bool, value: Value)

  datatype PromiseState = Pending | Fulfilled(result: Value) | Rejected(reason: Value)

  datatype Object =
    | Function(name: Option<string>)
    | TypedArray(className: Option<string>, numbers: seq<string>)
    | Leaf(source: string)                       // a date, an error, a regular expression, a weak collection
    | Array(elements: seq<Value>)
    | SetObject(members: seq<Value>)
    | MapObject(entries: seq<(Value, Value)>)
    | Promise(state: PromiseState)
    | Plain(className: Option<string>, properties: seq<Property>)

  type Heap = map<Obj, Object>

  /** Functions and typed arrays are printed without being remembered. */
  predicate Tracked(thing: Object) {
    !thing.Function? && !thing.TypedArray?
  }

  // ---------- layout ----------

  datatype Piece = Text(text: string) | Child(value: Value)

  function Decimal(n: nat): string {
    if n < 10 then ["0123456789"[n]] else Decimal(n / 10) + ["0123456789"[n % 10]]
  }

  function Separator(i: nat): seq<Piece> {
    if i > 0 then [Text(", ")] else []
  }

  function Elements(elements: seq<Value>): seq<Piece> {
    if elements == [] then []
    else Elements(elements[..|elements| - 1]) + Separator(|elements| - 1) + [Child(elements[|elements| - 1])]
  }

  function Entries(entries: seq<(Value, Value)>): seq<Piece> {
    if entries == [] then []
    else
      var (key, value) := entries[|entries| - 1];
      Entries(entries[..|entries| - 1]) + Separator(|entries| - 1) + [Child(key), Text(" => "), Child(value)]
  }

  predicate IsFunction(heap: Heap, value: Value) {
    value.Ref? && value.obj in heap && heap[value.obj].Function?
  }

  /** Accessors and functions are shown only where they are the object's own. */
  predicate Shown(heap: Heap, property: Property) {
    property.own || !(property.accessor || IsFunction(heap, property.value))
  }

  function Properties(heap: Heap, properties: seq<Property>): seq<Piece> {
    if properties == [] then []
    else
      var before, p := Properties(heap, properties[..|properties| - 1]), properties[|properties| - 1];
      if !Shown(heap, p) then before
      else
        before
        + [Text(if before == [] then " " else ", ")]
        + [if p.key.Symbol? then Child(Other(p.key.source)) else Text(p.key.text)]
        + [Text(": ")]
        + [if p.accessor then Text("[Getter]") else Child(p.value)]
  }

  function Prefix(className: Option<string>): string {
    if className.Some? && className.value != "Object" then className.value + " " else ""
  }

  function Layout(heap: Heap, thing: Object): seq<Piece>
    requires Tracked(thing)
  {
    match thing
    case Leaf(source) => [Text(source)]
    case Array(elements) => [Text("[")] + Elements(elements) + [Text("]")]
    case SetObject(members) => [Text("Set(" + Decimal(|members|) + ") { ")] + Elements(members) + [Text(" }")]
    case MapObject(entries) => [Text("Map(" + Decimal(|entries|) + ") { ")] + Entries(entries) + [Text(" }")]
    case Promise(Pending) => [Text("Promise { "), Text("<pending> }")]
    case Promise(Fulfilled(value)) => [Text("Promise { "), Child(value), Text(" }")]
    case Promise(Rejected(reason)) => [Text("Promise { "), Text("<rejected> "), Child(reason), Text(" }")]
    case Plain(className, properties) =>
      [Text(Prefix(className)), Text("{")] + Properties(heap, properties)
      + (if Properties(heap, properties) == [] then [] else [Text(" ")]) + [Text("}")]
  }

  function FunctionText(name: Option<string>): string {
    "[Function" + (if name.Some? then " " + name.value else "") + "]"
  }

  function Commas(texts: seq<string>): string {
    if texts == [] then ""
    else Commas(texts[..|texts| - 1]) + (if |texts| > 1 then ", " else "") + texts[|texts| - 1]
  }

  function TypedArrayText(className: Option<string>, elements: seq<string>): string {
    (if className.Some? then className.value + " " else "") + "[" + Commas(elements) + "]"
  }

  // ---------- printing ----------

  /** `calls` counts the calls of `ToSource`, `circles` the objects printed as `<Circular>`. */
  datatype Printed = Printed(text: string, visited: seq<Obj>, calls: nat, circles: nat)

  /** References lead to objects, and the list holds tracked objects, each once. */
  predicate Sound(heap: Heap, visited: seq<Obj>) {
    && (forall i :: 0 <= i < |visited| ==> visited[i] in heap && Tracked(heap[visited[i]]))
    && (forall i, j :: 0 <= i < j < |visited| ==> visited[i] != visited[j])
  }

  function Unvisited(heap: Heap, visited: seq<Obj>): set<Obj> {
    set o | o in heap && o !in visited
  }

  /** A reference to nothing cannot occur; it is printed like `undefined` here. */
  function ToSource(heap: Heap, value: Value, visited: seq<Obj>): (r: Printed)
    requires Sound(heap, visited)
    ensures Sound(heap, r.visited) && visited <= r.visited
    decreases Unvisited(heap, visited), 0, 0
  {
    match value
    case Undefined => Printed("undefined", visited, 1, 0)
    case Null => Printed("null", visited, 1, 0)
    case String(chars) => Printed("\"" + chars + "\"", visited, 1, 0)
    case Other(source) => Printed(source, visited, 1, 0)
    case Ref(obj) =>
      if obj !in heap then Printed("undefined", visited, 1, 0)
      else
        match heap[obj]
        case Function(name) => Printed(FunctionText(name), visited, 1, 0)
        case TypedArray(className, elements) => Printed(TypedArrayText(className, elements), visited, 1 + |elements|, 0)
        case _ =>
          if obj in visited then Printed("<Circular>", visited, 1, 1)
          else
            assert Unvisited(heap, visited + [obj]) < Unvisited(heap, visited) by {
              assert obj in Unvisited(heap, visited) && obj !in Unvisited(heap, visited + [obj]);
            }
            var inner := PrintPieces(heap, Layout(heap, heap[obj]), visited + [obj]);
            inner.(calls := inner.calls + 1)
  }

  function PrintPieces(heap: Heap, pieces: seq<Piece>, visited: seq<Obj>): (r: Printed)
    requires Sound(heap, visited)
    ensures Sound(heap, r.visited) && visited <= r.visited
    decreases Unvisited(heap, visited), 1, |pieces|
  {
    if pieces == [] then Printed("", visited, 0, 0)
    else
      var first := if pieces[0].Text? then Printed(pieces[0].text, visited, 0, 0) else ToSource(heap, pieces[0].value, visited);
      UnvisitedShrinks(heap, visited, first.visited);
      var rest := PrintPieces(heap, pieces[1..], first.visited);
      Printed(first.text + rest.text, rest.visited, first.calls + rest.calls, first.circles + rest.circles)
  }

  lemma UnvisitedShrinks(heap: Heap, visited: seq<Obj>, later: seq<Obj>)
    requires visited <= later
    ensures Unvisited(heap, later) <= Unvisited(heap, visited)
  {
  }
}
