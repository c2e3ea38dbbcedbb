/** What the value printer visits and how much work it does, and the printer as it runs. */
module ValuePrinter {
  import opened ValuePrinterState
  import opened Wrappers

  // ---------- which objects are expanded ----------

  /** The tracked objects that pieces refer to. */
  function Referred(heap: Heap, pieces: seq<Piece>): set<Obj> {
    set p | p in pieces && p.Child? && p.value.Ref? && p.value.obj in heap && Tracked(heap[p.value.obj]) :: p.value.obj
  }

  function ReferredBy(heap: Heap, o: Obj): set<Obj> {
    if o in heap && Tracked(heap[o]) then Referred(heap, Layout(heap, heap[o])) else {}
  }

  function Elems(visited: seq<Obj>): set<Obj> {
    set o | o in visited
  }

  /** What an object of the set refers to is in the set too. */
  predicate ClosedUnder(heap: Heap, objects: set<Obj>) {
    forall o :: o in objects ==> ReferredBy(heap, o) <= objects
  }

  /** Everything referred to from outside the old list is in the new one, and only what has to be. */
  predicate Expanded(heap: Heap, roots: set<Obj>, before: seq<Obj>, after: seq<Obj>) {
    && before <= after
    && roots <= Elems(after)
    && (forall o :: o in after[|before|..] ==> ReferredBy(heap, o) <= Elems(after))
  }

  lemma ReferredCons(heap: Heap, pieces: seq<Piece>)
    requires pieces != []
    ensures Referred(heap, pieces) == Referred(heap, [pieces[0]]) + Referred(heap, pieces[1..])
  {
    assert forall p :: p in pieces <==> p == pieces[0] || p in pieces[1..];
  }

  lemma ElemsGrow(before: seq<Obj>, after: seq<Obj>)
    requires before <= after
    ensures Elems(before) <= Elems(after)
  {
    assert forall o :: o in before ==> o in after;
  }

  lemma ExpandedTwice(heap: Heap, roots: set<Obj>, more: set<Obj>, a: seq<Obj>, b: seq<Obj>, c: seq<Obj>)
    requires Expanded(heap, roots, a, b) && Expanded(heap, more, b, c)
    ensures Expanded(heap, roots + more, a, c)
  {
    ElemsGrow(b, c);
    forall o | o in c[|a|..]
      ensures ReferredBy(heap, o) <= Elems(c)
    {
      assert c[|a|..] == b[|a|..] + c[|b|..];
    }
  }

  /** Every object referred to is visited, and so are those that the newly visited refer to. */
  lemma {:induction false} ValueExpanded(heap: Heap, value: Value, visited: seq<Obj>)
    requires Sound(heap, visited)
    ensures Expanded(heap, Referred(heap, [Child(value)]), visited, ToSource(heap, value, visited).visited)
    decreases Unvisited(heap, visited), 0, 0
  {
    if value.Ref? && value.obj in heap && Tracked(heap[value.obj]) {
      var o := value.obj;
      assert Referred(heap, [Child(value)]) == {o};
      if o !in visited {
        assert o in Unvisited(heap, visited) && o !in Unvisited(heap, visited + [o]);
        PiecesExpanded(heap, Layout(heap, heap[o]), visited + [o]);
        var after := ToSource(heap, value, visited).visited;
        assert after[|visited|..] == [o] + after[|visited| + 1..];
        assert (visited + [o])[|visited|] == o;
      }
    } else {
      assert Referred(heap, [Child(value)]) == {};
    }
  }

  lemma {:induction false} PiecesExpanded(heap: Heap, pieces: seq<Piece>, visited: seq<Obj>)
    requires Sound(heap, visited)
    ensures Expanded(heap, Referred(heap, pieces), visited, PrintPieces(heap, pieces, visited).visited)
    decreases Unvisited(heap, visited), 1, |pieces|
  {
    if pieces != [] {
      ReferredCons(heap, pieces);
      var middle := if pieces[0].Text? then visited else ToSource(heap, pieces[0].value, visited).visited;
      if pieces[0].Child? {
        ValueExpanded(heap, pieces[0].value, visited);
      } else {
        assert Referred(heap, [pieces[0]]) == {};
      }
      UnvisitedShrinks(heap, visited, middle);
      PiecesExpanded(heap, pieces[1..], middle);
      ExpandedTwice(heap, Referred(heap, [pieces[0]]), Referred(heap, pieces[1..]), visited, middle, PrintPieces(heap, pieces, visited).visited);
    }
  }

  /** Nothing is visited but what every closed set around the roots contains. */
  lemma {:induction false} ValueConfined(heap: Heap, value: Value, visited: seq<Obj>, region: set<Obj>)
    requires Sound(heap, visited) && ClosedUnder(heap, region) && Referred(heap, [Child(value)]) <= region
    ensures Elems(ToSource(heap, value, visited).visited) <= Elems(visited) + region
    decreases Unvisited(heap, visited), 0, 0
  {
    if value.Ref? && value.obj in heap && Tracked(heap[value.obj]) && value.obj !in visited {
      var o := value.obj;
      assert o in Referred(heap, [Child(value)]) by {
        assert Child(value) in [Child(value)];
      }
      assert o in Unvisited(heap, visited) && o !in Unvisited(heap, visited + [o]);
      assert ReferredBy(heap, o) <= region;
      PiecesConfined(heap, Layout(heap, heap[o]), visited + [o], region);
    }
  }

  lemma {:induction false} PiecesConfined(heap: Heap, pieces: seq<Piece>, visited: seq<Obj>, region: set<Obj>)
    requires Sound(heap, visited) && ClosedUnder(heap, region) && Referred(heap, pieces) <= region
    ensures Elems(PrintPieces(heap, pieces, visited).visited) <= Elems(visited) + region
    decreases Unvisited(heap, visited), 1, |pieces|
  {
    if pieces != [] {
      ReferredCons(heap, pieces);
      var middle := if pieces[0].Text? then visited else ToSource(heap, pieces[0].value, visited).visited;
      if pieces[0].Child? {
        ValueConfined(heap, pieces[0].value, visited, region);
      }
      UnvisitedShrinks(heap, visited, middle);
      PiecesConfined(heap, pieces[1..], middle, region);
    }
  }

  /** Printing a value expands exactly the objects reachable from it: the least closed set around it, each once. */
  lemma {:induction false} ExpandsReachable(heap: Heap, value: Value, region: set<Obj>)
    ensures var visited := ToSource(heap, value, []).visited;
            && Referred(heap, [Child(value)]) <= Elems(visited)
            && ClosedUnder(heap, Elems(visited))
            && (ClosedUnder(heap, region) && Referred(heap, [Child(value)]) <= region ==> Elems(visited) <= region)
            && (forall i, j :: 0 <= i < j < |visited| ==> visited[i] != visited[j])
  {
    ValueExpanded(heap, value, []);
    var visited := ToSource(heap, value, []).visited;
    assert visited[0..] == visited;
    if ClosedUnder(heap, region) && Referred(heap, [Child(value)]) <= region {
      ValueConfined(heap, value, [], region);
    }
  }

  // ---------- how much work it is ----------

  /** The calls that printing a value takes without expanding a tracked object. */
  function Cost(heap: Heap, value: Value): nat {
    if value.Ref? && value.obj in heap && heap[value.obj].TypedArray? then 1 + |heap[value.obj].numbers| else 1
  }

  function PiecesCost(heap: Heap, pieces: seq<Piece>): nat {
    if pieces == [] then 0
    else (if pieces[0].Child? then Cost(heap, pieces[0].value) else 0) + PiecesCost(heap, pieces[1..])
  }

  /** The out-degrees of the objects, in calls. */
  function Degrees(heap: Heap, objects: seq<Obj>): nat {
    if objects == [] then 0
    else
      (if objects[0] in heap && Tracked(heap[objects[0]]) then PiecesCost(heap, Layout(heap, heap[objects[0]])) else 0)
      + Degrees(heap, objects[1..])
  }

  lemma {:induction false} DegreesJoin(heap: Heap, a: seq<Obj>, b: seq<Obj>)
    ensures Degrees(heap, a + b) == Degrees(heap, a) + Degrees(heap, b)
  {
    if a == [] {
      assert a + b == b;
    } else {
      assert (a + b)[1..] == a[1..] + b;
      DegreesJoin(heap, a[1..], b);
    }
  }

  /** The number of calls is that of the value itself and of the references out of the objects expanded for it. */
  lemma {:induction false} ValueCalls(heap: Heap, value: Value, visited: seq<Obj>)
    requires Sound(heap, visited)
    ensures var r := ToSource(heap, value, visited); r.calls == Cost(heap, value) + Degrees(heap, r.visited[|visited|..])
    decreases Unvisited(heap, visited), 0, 0
  {
    hide Layout, PiecesCost, PrintPieces;
    var r := ToSource(heap, value, visited);
    if value.Ref? && value.obj in heap && Tracked(heap[value.obj]) && value.obj !in visited {
      var o := value.obj;
      assert o in Unvisited(heap, visited) && o !in Unvisited(heap, visited + [o]);
      PiecesCalls(heap, Layout(heap, heap[o]), visited + [o]);
      assert r.visited[|visited|..] == [o] + r.visited[|visited| + 1..];
      assert (visited + [o])[|visited|] == o;
    } else {
      assert r.visited[|visited|..] == [];
    }
  }

  lemma {:induction false} PiecesCalls(heap: Heap, pieces: seq<Piece>, visited: seq<Obj>)
    requires Sound(heap, visited)
    ensures var r := PrintPieces(heap, pieces, visited); r.calls == PiecesCost(heap, pieces) + Degrees(heap, r.visited[|visited|..])
    decreases Unvisited(heap, visited), 1, |pieces|
  {
    if pieces != [] {
      var r := PrintPieces(heap, pieces, visited);
      var middle := if pieces[0].Text? then visited else ToSource(heap, pieces[0].value, visited).visited;
      if pieces[0].Child? {
        ValueCalls(heap, pieces[0].value, visited);
      } else {
        assert middle[|visited|..] == [];
      }
      UnvisitedShrinks(heap, visited, middle);
      PiecesCalls(heap, pieces[1..], middle);
      assert r.visited[|visited|..] == middle[|visited|..] + r.visited[|middle|..];
      DegreesJoin(heap, middle[|visited|..], r.visited[|middle|..]);
    } else {
      assert visited[|visited|..] == [];
    }
  }

  // ---------- printing one piece after another ----------

  function Then(a: Printed, b: Printed): Printed {
    Printed(a.text + b.text, b.visited, a.calls + b.calls, a.circles + b.circles)
  }

  function PrintPiece(heap: Heap, piece: Piece, visited: seq<Obj>): (r: Printed)
    requires Sound(heap, visited)
    ensures Sound(heap, r.visited) && visited <= r.visited
  {
    if piece.Text? then Printed(piece.text, visited, 0, 0) else ToSource(heap, piece.value, visited)
  }

  lemma ThenAssociates(a: Printed, b: Printed, c: Printed)
    ensures Then(a, Then(b, c)) == Then(Then(a, b), c)
  {
    assert a.text + (b.text + c.text) == a.text + b.text + c.text;
  }

  lemma VisitedThen(a: Printed, b: Printed)
    ensures Then(a, b).visited == b.visited
  {
  }

  lemma {:induction false} PiecesSnoc(heap: Heap, pieces: seq<Piece>, last: Piece, visited: seq<Obj>)
    requires Sound(heap, visited)
    ensures PrintPieces(heap, pieces + [last], visited) ==
      Then(PrintPieces(heap, pieces, visited), PrintPiece(heap, last, PrintPieces(heap, pieces, visited).visited))
    decreases |pieces|
  {
    hide ToSource;
    var all := pieces + [last];
    if pieces == [] {
      assert all[1..] == [];
      var r := PrintPiece(heap, last, visited);
      assert PrintPieces(heap, [], r.visited) == Printed("", r.visited, 0, 0);
      assert r.text + "" == r.text && "" + r.text == r.text;
      assert all[0] == last;
    } else {
      assert all[0] == pieces[0] && all[1..] == pieces[1..] + [last];
      var first := PrintPiece(heap, pieces[0], visited);
      PiecesSnoc(heap, pieces[1..], last, first.visited);
      var rest := PrintPieces(heap, pieces[1..], first.visited);
      var end := PrintPiece(heap, last, rest.visited);
      assert first.text + (rest.text + end.text) == (first.text + rest.text) + end.text;
    }
  }

  lemma PrintTwo(heap: Heap, a: string, b: string, visited: seq<Obj>)
    requires Sound(heap, visited)
    ensures PrintPieces(heap, [Text(a), Text(b)], visited) == Printed(a + b, visited, 0, 0)
  {
    PiecesSnoc(heap, [], Text(a), visited);
    assert [] + [Text(a)] == [Text(a)];
    PiecesSnoc(heap, [Text(a)], Text(b), visited);
    assert [Text(a)] + [Text(b)] == [Text(a), Text(b)];
    assert "" + a == a;
  }

  /** A shared object is printed in full once and as circular after that, though it is in no cycle. */
  lemma SharedPrintsCircular()
    ensures ToSource(map[0 := Array([Ref(1), Ref(1)]), 1 := Array([])], Ref(0), []).text == "[" + "[]" + ", " + "<Circular>" + "]"
  {
    var heap: Heap := map[0 := Array([Ref(1), Ref(1)]), 1 := Array([])];
    var empty: seq<Obj>, one: seq<Obj>, both: seq<Obj> := [], [0], [0, 1];
    SharedLayout(heap);
    PrintTwo(heap, "[", "]", both);
    assert one + [1] == both && empty + [0] == one;
    var child := Child(Ref(1));
    assert PrintPiece(heap, child, one) == Printed("[]", both, 1, 0);
    assert PrintPiece(heap, child, both) == Printed("<Circular>", both, 1, 1);
    PrintFive(heap, child, one, both);
  }

  lemma SharedLayout(heap: Heap)
    requires heap == map[0 := Array([Ref(1), Ref(1)]), 1 := Array([])]
    ensures Layout(heap, heap[0]) == [Text("["), Child(Ref(1)), Text(", "), Child(Ref(1)), Text("]")]
    ensures Layout(heap, heap[1]) == [Text("["), Text("]")]
  {
    assert [Ref(1), Ref(1)][..1] == [Ref(1)] && [Ref(1)][..0] == [];
    assert Elements([Ref(1)]) == [Child(Ref(1))];
    assert Elements([Ref(1), Ref(1)]) == [Child(Ref(1)), Text(", "), Child(Ref(1))];
  }

  lemma PrintFive(heap: Heap, child: Piece, one: seq<Obj>, both: seq<Obj>)
    requires Sound(heap, one) && Sound(heap, both)
    requires PrintPiece(heap, child, one) == Printed("[]", both, 1, 0) && PrintPiece(heap, child, both) == Printed("<Circular>", both, 1, 1)
    ensures PrintPieces(heap, [Text("["), child, Text(", "), child, Text("]")], one).text == "[" + "[]" + ", " + "<Circular>" + "]"
  {
    var p1, p2 := [Text("[")], [Text("["), child];
    var p3, p4 := p2 + [Text(", ")], p2 + [Text(", ")] + [child];
    PiecesSnoc(heap, p2, Text(", "), one);
    PiecesSnoc(heap, p3, child, one);
    PiecesSnoc(heap, p4, Text("]"), one);
    PrintFirstTwo(heap, "[", child, one);
    assert p4 + [Text("]")] == [Text("["), child, Text(", "), child, Text("]")];
    hide ToSource, PrintPieces;
  }

  lemma PrintFirstTwo(heap: Heap, a: string, child: Piece, visited: seq<Obj>)
    requires Sound(heap, visited)
    ensures PrintPieces(heap, [Text(a), child], visited) ==
      Printed(a + PrintPiece(heap, child, visited).text, PrintPiece(heap, child, visited).visited, PrintPiece(heap, child, visited).calls,
              PrintPiece(heap, child, visited).circles)
  {
    PiecesSnoc(heap, [], Text(a), visited);
    assert [] + [Text(a)] == [Text(a)];
    PiecesSnoc(heap, [Text(a)], child, visited);
    assert [Text(a)] + [child] == [Text(a), child];
    assert "" + a == a;
    hide ToSource;
  }

  // ---------- the printer ----------

  /** The output string and the list of visited objects are shared by all the calls. */
  class Printer {
    const heap: Heap
    var out: string
    var visited: seq<Obj>
    ghost var calls: nat
    ghost var circles: nat

    constructor (heap: Heap)
      ensures this.heap == heap && out == "" && visited == [] && calls == 0 && circles == 0
    {
      this.heap := heap;
      out, visited, calls, circles := "", [], 0, 0;
    }

    ghost function View(): Printed
      reads this
    {
      Printed(out, visited, calls, circles)
    }

    /** These pieces have been printed since `start`. */
    ghost predicate Did(start: Printed, pieces: seq<Piece>)
      reads this
    {
      Sound(heap, start.visited) && View() == Then(start, PrintPieces(heap, pieces, start.visited))
    }

    method Emit(text: string, ghost start: Printed, ghost pieces: seq<Piece>)
      requires Did(start, pieces)
      modifies `out
      ensures Did(start, pieces + [Text(text)])
    {
      PiecesSnoc(heap, pieces, Text(text), start.visited);
      ghost var so := PrintPieces(heap, pieces, start.visited);
      assert start.text + so.text + text == start.text + (so.text + text);
      out := out + text;
    }

    method Print(value: Value, ghost start: Printed, ghost pieces: seq<Piece>)
      requires Did(start, pieces)
      modifies this
      ensures Did(start, pieces + [Child(value)]) && old(visited) <= visited
      decreases Unvisited(heap, visited), 1
    {
      hide ValuePrinterState.ToSource, PrintPieces, Then;
      ghost var so := PrintPieces(heap, pieces, start.visited);
      VisitedThen(start, so);
      assert View().visited == so.visited;
      ghost var printed := PrintPiece(heap, Child(value), visited);
      PiecesSnoc(heap, pieces, Child(value), start.visited);
      ThenAssociates(start, so, printed);
      ToSource(value);
    }

    /** The loop over the elements of an array, or the values of a set. */
    method PrintElements(elements: seq<Value>, ghost start: Printed, ghost pieces: seq<Piece>)
      requires Did(start, pieces)
      modifies this
      ensures Did(start, pieces + Elements(elements)) && old(visited) <= visited
      decreases Unvisited(heap, visited), 2
    {
      hide Did;
      assert pieces + Elements(elements[..0]) == pieces;
      for i := 0 to |elements|
        invariant Did(start, pieces + Elements(elements[..i])) && old(visited) <= visited
      {
        ghost var done := pieces + Elements(elements[..i]);
        if i > 0 {
          Emit(", ", start, done);
        }
        UnvisitedShrinks(heap, old(visited), visited);
        assert elements[..i + 1][..i] == elements[..i];
        assert Elements(elements[..i + 1]) == Elements(elements[..i]) + Separator(i) + [Child(elements[i])];
        assert pieces + Elements(elements[..i + 1]) == done + Separator(i) + [Child(elements[i])];
        Print(elements[i], start, done + Separator(i));
      }
      assert elements[..|elements|] == elements;
    }

    method ArrayToSource(elements: seq<Value>, ghost start: Printed)
      requires Did(start, [])
      modifies this
      ensures Did(start, Layout(heap, Array(elements)))
      decreases Unvisited(heap, visited), 3
    {
      hide Did;
      Emit("[", start, []);
      PrintElements(elements, start, [] + [Text("[")]);
      Emit("]", start, [] + [Text("[")] + Elements(elements));
      assert [] + [Text("[")] + Elements(elements) + [Text("]")] == Layout(heap, Array(elements));
    }

    method SetToSource(members: seq<Value>, ghost start: Printed)
      requires Did(start, [])
      modifies this
      ensures Did(start, Layout(heap, SetObject(members)))
      decreases Unvisited(heap, visited), 3
    {
      hide Did;
      var head := "Set(" + Decimal(|members|) + ") { ";
      Emit(head, start, []);
      PrintElements(members, start, [] + [Text(head)]);
      Emit(" }", start, [] + [Text(head)] + Elements(members));
      assert [] + [Text(head)] + Elements(members) + [Text(" }")] == Layout(heap, SetObject(members));
    }

    method MapToSource(entries: seq<(Value, Value)>, ghost start: Printed)
      requires Did(start, [])
      modifies this
      ensures Did(start, Layout(heap, MapObject(entries)))
      decreases Unvisited(heap, visited), 3
    {
      hide Did;
      var head := "Map(" + Decimal(|entries|) + ") { ";
      Emit(head, start, []);
      ghost var pieces: seq<Piece> := [Text(head)];
      assert [] + [Text(head)] == pieces && pieces + Entries(entries[..0]) == pieces;
      var firstValue := true;
      for i := 0 to |entries|
        invariant firstValue == (i == 0)
        invariant Did(start, pieces + Entries(entries[..i])) && old(visited) <= visited
      {
        ghost var done := pieces + Entries(entries[..i]);
        if firstValue {
          firstValue := false;
        } else {
          Emit(", ", start, done);
        }
        done := done + Separator(i);
        var (key, value) := entries[i];
        assert entries[..i + 1][..i] == entries[..i];
        assert Entries(entries[..i + 1]) == Entries(entries[..i]) + Separator(i) + [Child(key), Text(" => "), Child(value)];
        assert pieces + Entries(entries[..i + 1]) == done + [Child(key)] + [Text(" => ")] + [Child(value)];
        UnvisitedShrinks(heap, old(visited), visited);
        Print(key, start, done);
        Emit(" => ", start, done + [Child(key)]);
        UnvisitedShrinks(heap, old(visited), visited);
        Print(value, start, done + [Child(key)] + [Text(" => ")]);
      }
      assert entries[..|entries|] == entries;
      Emit(" }", start, pieces + Entries(entries));
    }

    method PromiseToSource(state: PromiseState, ghost start: Printed)
      requires Did(start, [])
      modifies this
      ensures Did(start, Layout(heap, Promise(state)))
      decreases Unvisited(heap, visited), 3
    {
      hide Did;
      var head := "Promise { ";
      Emit(head, start, []);
      assert [] + [Text(head)] == [Text(head)];
      match state
      case Pending =>
        Emit("<pending> }", start, [Text(head)]);
        assert [Text(head)] + [Text("<pending> }")] == Layout(heap, Promise(state));
      case Fulfilled(value) =>
        Print(value, start, [Text(head)]);
        Emit(" }", start, [Text(head)] + [Child(value)]);
        assert [Text(head)] + [Child(value)] + [Text(" }")] == Layout(heap, Promise(state));
      case Rejected(value) =>
        Emit("<rejected> ", start, [Text(head)]);
        Print(value, start, [Text(head)] + [Text("<rejected> ")]);
        Emit(" }", start, [Text(head)] + [Text("<rejected> ")] + [Child(value)]);
        assert [Text(head)] + [Text("<rejected> ")] + [Child(value)] + [Text(" }")] == Layout(heap, Promise(state));
    }

    /** One property of the loop of `ObjectToSource`. */
    method PropertyToSource(p: Property, first: bool, ghost start: Printed, ghost pieces: seq<Piece>)
      requires Did(start, pieces)
      modifies this
      ensures old(visited) <= visited
      ensures Did(start,
        pieces + [Text(if first then " " else ", ")] + [if p.key.Symbol? then Child(Other(p.key.source)) else Text(p.key.text)]
        + [Text(": ")] + [if p.accessor then Text("[Getter]") else Child(p.value)])
      decreases Unvisited(heap, visited), 2
    {
      hide Did;
      ghost var done := pieces + [Text(if first then " " else ", ")];
      Emit(if first then " " else ", ", start, pieces);
      match p.key {
        case Symbol(source) =>
          Print(Other(source), start, done);
          done := done + [Child(Other(source))];
        case Name(text) =>
          Emit(text, start, done);
          done := done + [Text(text)];
      }
      Emit(": ", start, done);
      done := done + [Text(": ")];
      if p.accessor {
        Emit("[Getter]", start, done);
      } else {
        UnvisitedShrinks(heap, old(visited), visited);
        Print(p.value, start, done);
      }
    }

    method ObjectToSource(className: Option<string>, properties: seq<Property>, ghost start: Printed)
      requires Did(start, [])
      modifies this
      ensures Did(start, Layout(heap, Plain(className, properties)))
      decreases Unvisited(heap, visited), 3
    {
      hide Did;
      Emit(Prefix(className), start, []);
      Emit("{", start, [] + [Text(Prefix(className))]);
      ghost var head: seq<Piece> := [Text(Prefix(className)), Text("{")];
      assert [] + [Text(Prefix(className))] + [Text("{")] == head && head + Properties(heap, properties[..0]) == head;
      var firstValue := true;
      for i := 0 to |properties|
        invariant firstValue == (Properties(heap, properties[..i]) == [])
        invariant Did(start, head + Properties(heap, properties[..i])) && old(visited) <= visited
      {
        var p := properties[i];
        assert properties[..i + 1][..i] == properties[..i];
        ghost var before := Properties(heap, properties[..i]);
        if (p.accessor || IsFunction(heap, p.value)) && !p.own {
          assert Properties(heap, properties[..i + 1]) == before;
          continue;
        }
        UnvisitedShrinks(heap, old(visited), visited);
        PropertyToSource(p, firstValue, start, head + before);
        PropertyPieces(heap, properties[..i + 1], head, firstValue);
        firstValue := false;
      }
      assert properties[..|properties|] == properties;
      ghost var shown := Properties(heap, properties);
      if !firstValue {
        Emit(" ", start, head + shown);
        Emit("}", start, head + shown + [Text(" ")]);
      } else {
        Emit("}", start, head + shown);
      }
      assert head + shown + (if shown == [] then [] else [Text(" ")]) + [Text("}")] == Layout(heap, Plain(className, properties));
      assert shown == [] ==> head + shown + [] == head + shown;
    }

    method ToSource(value: Value)
      requires Sound(heap, visited)
      modifies this
      ensures View() == Then(old(View()), ValuePrinterState.ToSource(heap, value, old(visited)))
      ensures Sound(heap, visited) && old(visited) <= visited
      decreases Unvisited(heap, visited), 0
    {
      calls := calls + 1;
      match value
      case Undefined => out := out + "undefined";
      case Null => out := out + "null";
      case String(chars) => out := out + ("\"" + chars + "\"");
      case Other(source) => out := out + source;
      case Ref(obj) =>
        if obj !in heap {
          out := out + "undefined";
        } else {
          ObjectRef(obj);
        }
    }

    method ObjectRef(obj: Obj)
      requires Sound(heap, visited) && obj in heap && calls > 0
      modifies this
      ensures View() == Then(old(Printed(out, visited, calls - 1, circles)), ValuePrinterState.ToSource(heap, Ref(obj), old(visited)))
      ensures Sound(heap, visited) && old(visited) <= visited
      decreases Unvisited(heap, visited), 0, 0
    {
      if heap[obj].Function? {
        out := out + FunctionText(heap[obj].name);
        return;
      }
      if heap[obj].TypedArray? {
        TypedArrayToSource(heap[obj].className, heap[obj].numbers);
        return;
      }
      for i := 0 to |visited|
        invariant obj !in visited[..i]
      {
        if visited[i] == obj {
          out := out + "<Circular>";
          circles := circles + 1;
          return;
        }
      }
      visited := visited + [obj];
      assert obj in Unvisited(heap, old(visited)) && obj !in Unvisited(heap, visited);
      Expand(heap[obj]);
    }

    /** Typed arrays hold numbers only, which are printed without being remembered. */
    method TypedArrayToSource(className: Option<string>, numbers: seq<string>)
      modifies `out, `calls
      ensures out == old(out) + TypedArrayText(className, numbers) && calls == old(calls) + |numbers|
    {
      ghost var head := if className.Some? then className.value + " " else "";
      if className.Some? {
        out := out + className.value;
        out := out + " ";
      }
      assert out == old(out) + head;
      out := out + "[";
      for i := 0 to |numbers|
        invariant out == old(out) + (head + "[" + Commas(numbers[..i])) && calls == old(calls) + i
      {
        assert numbers[..i + 1][..i] == numbers[..i];
        ghost var before := out;
        if i > 0 {
          out := out + ", ";
        }
        out := out + numbers[i];
        calls := calls + 1;
        ghost var comma := if i > 0 then ", " else "";
        assert out == before + comma + numbers[i];
        assert Commas(numbers[..i + 1]) == Commas(numbers[..i]) + comma + numbers[i];
        JoinFour(old(out), head + "[", Commas(numbers[..i]), comma, numbers[i]);
      }
      assert numbers[..|numbers|] == numbers;
      out := out + "]";
    }

    /** What is printed for a tracked object when it is met for the first time. */
    method Expand(thing: Object)
      requires Sound(heap, visited) && Tracked(thing)
      modifies this
      ensures View() == Then(old(View()), PrintPieces(heap, Layout(heap, thing), old(visited)))
      ensures Sound(heap, visited) && old(visited) <= visited
      decreases Unvisited(heap, visited), 4
    {
      ghost var start := View();
      assert start.text + "" == start.text;
      match thing
      case Leaf(source) =>
        Emit(source, start, []);
        assert [] + [Text(source)] == Layout(heap, thing);
      case Array(elements) => ArrayToSource(elements, start);
      case SetObject(members) => SetToSource(members, start);
      case MapObject(entries) => MapToSource(entries, start);
      case Promise(state) => PromiseToSource(state, start);
      case Plain(className, properties) => ObjectToSource(className, properties, start);
    }
  }

  lemma JoinFour(a: string, b: string, c: string, d: string, e: string)
    ensures a + (b + c) + d + e == a + (b + (c + d + e))
  {
  }

  lemma PropertyPieces(heap: Heap, properties: seq<Property>, head: seq<Piece>, first: bool)
    requires properties != [] && Shown(heap, properties[|properties| - 1])
    requires first == (Properties(heap, properties[..|properties| - 1]) == [])
    ensures var p := properties[|properties| - 1];
            head + Properties(heap, properties) ==
              head + Properties(heap, properties[..|properties| - 1])
              + [Text(if first then " " else ", ")] + [if p.key.Symbol? then Child(Other(p.key.source)) else Text(p.key.text)]
              + [Text(": ")] + [if p.accessor then Text("[Getter]") else Child(p.value)]
    ensures Properties(heap, properties) != []
  {
  }
}
