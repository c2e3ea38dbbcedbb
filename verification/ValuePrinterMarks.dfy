/**
  When the value printer prints `<Circular>`. A mark that closes a cycle is right; a mark for an
  object that has been printed in full before, and that is not being printed, is wrong.
*/
module ValuePrinterMarks {
  import opened ValuePrinterState
  import opened ValuePrinter

  // ---------- references ----------

  predicate Refers(heap: Heap, piece: Piece) {
    piece.Child? && piece.value.Ref? && piece.value.obj in heap && Tracked(heap[piece.value.obj])
  }

  /** The tracked objects that pieces refer to, once for every reference. */
  function Targets(heap: Heap, pieces: seq<Piece>): seq<Obj> {
    if pieces == [] then []
    else (if Refers(heap, pieces[0]) then [pieces[0].value.obj] else []) + Targets(heap, pieces[1..])
  }

  function TargetsOf(heap: Heap, objects: seq<Obj>): seq<Obj> {
    if objects == [] then []
    else
      (if objects[0] in heap && Tracked(heap[objects[0]]) then Targets(heap, Layout(heap, heap[objects[0]])) else [])
      + TargetsOf(heap, objects[1..])
  }

  /** All references from a value and from objects. */
  function References(heap: Heap, value: Value, objects: seq<Obj>): seq<Obj> {
    Targets(heap, [Child(value)]) + TargetsOf(heap, objects)
  }

  lemma {:induction false} TargetsAreReferred(heap: Heap, pieces: seq<Piece>)
    ensures Elems(Targets(heap, pieces)) == Referred(heap, pieces)
  {
    if pieces != [] {
      TargetsAreReferred(heap, pieces[1..]);
      ReferredCons(heap, pieces);
      assert Referred(heap, [pieces[0]]) == if Refers(heap, pieces[0]) then {pieces[0].value.obj} else {};
    }
  }

  lemma {:induction false} TargetsOfJoin(heap: Heap, a: seq<Obj>, b: seq<Obj>)
    ensures TargetsOf(heap, a + b) == TargetsOf(heap, a) + TargetsOf(heap, b)
  {
    hide Targets, Layout;
    if a == [] {
      assert a + b == b;
    } else {
      assert (a + b)[1..] == a[1..] + b;
      TargetsOfJoin(heap, a[1..], b);
    }
  }

  lemma SingleTarget(heap: Heap, piece: Piece)
    ensures Targets(heap, [piece]) == if Refers(heap, piece) then [piece.value.obj] else []
  {
    assert [piece][1..] == [];
  }

  lemma TargetsOfCons(heap: Heap, o: Obj, rest: seq<Obj>)
    requires o in heap && Tracked(heap[o])
    ensures TargetsOf(heap, [o] + rest) == Targets(heap, Layout(heap, heap[o])) + TargetsOf(heap, rest)
  {
    assert ([o] + rest)[1..] == rest;
  }

  // ---------- how many marks there are ----------

  /** Every reference that is met either expands its object or prints a mark. */
  lemma {:induction false} ValueMarks(heap: Heap, value: Value, visited: seq<Obj>)
    requires Sound(heap, visited)
    ensures var r := ToSource(heap, value, visited);
            r.circles + |r.visited| - |visited| == |References(heap, value, r.visited[|visited|..])|
    decreases Unvisited(heap, visited), 0, 0
  {
    hide Layout, PrintPieces, Targets, TargetsOf;
    SingleTarget(heap, Child(value));
    var r := ToSource(heap, value, visited);
    if value.Ref? && value.obj in heap && Tracked(heap[value.obj]) && value.obj !in visited {
      var o := value.obj;
      assert o in Unvisited(heap, visited) && o !in Unvisited(heap, visited + [o]);
      PiecesMarks(heap, Layout(heap, heap[o]), visited + [o]);
      assert r.visited[|visited|..] == [o] + r.visited[|visited| + 1..];
      assert (visited + [o])[|visited|] == o;
      TargetsOfCons(heap, o, r.visited[|visited| + 1..]);
    } else {
      assert r.visited == visited;
      NoTargets(heap, visited);
    }
  }

  lemma {:induction false} PiecesMarks(heap: Heap, pieces: seq<Piece>, visited: seq<Obj>)
    requires Sound(heap, visited)
    ensures var r := PrintPieces(heap, pieces, visited);
            r.circles + |r.visited| - |visited| == |Targets(heap, pieces)| + |TargetsOf(heap, r.visited[|visited|..])|
    decreases Unvisited(heap, visited), 1, |pieces|
  {
    hide ToSource, TargetsOf;
    if pieces != [] {
      var r := PrintPieces(heap, pieces, visited);
      var middle := if pieces[0].Text? then visited else ToSource(heap, pieces[0].value, visited).visited;
      if pieces[0].Child? {
        ValueMarks(heap, pieces[0].value, visited);
        SingleTarget(heap, pieces[0]);
      } else {
        NoTargets(heap, visited);
      }
      UnvisitedShrinks(heap, visited, middle);
      PiecesMarks(heap, pieces[1..], middle);
      assert r.visited[|visited|..] == middle[|visited|..] + r.visited[|middle|..];
      TargetsOfJoin(heap, middle[|visited|..], r.visited[|middle|..]);
    } else {
      NoTargets(heap, visited);
    }
  }

  lemma NoTargets(heap: Heap, visited: seq<Obj>)
    ensures TargetsOf(heap, visited[|visited|..]) == []
  {
  }

  // ---------- no marks on a tree ----------

  /** `objects` lists what can be reached from the value, each once. */
  ghost predicate Reach(heap: Heap, value: Value, objects: seq<Obj>) {
    && (forall i, j :: 0 <= i < j < |objects| ==> objects[i] != objects[j])
    && Referred(heap, [Child(value)]) <= Elems(objects)
    && ClosedUnder(heap, Elems(objects))
    && (forall region: set<Obj> :: ClosedUnder(heap, region) && Referred(heap, [Child(value)]) <= region ==> Elems(objects) <= region)
  }

  /** Every object that can be reached is referred to once, from the value or from one of the objects. */
  predicate IsTree(heap: Heap, value: Value, objects: seq<Obj>) {
    forall o :: o in objects ==> multiset(References(heap, value, objects))[o] == 1
  }

  lemma VisitedIsReach(heap: Heap, value: Value)
    ensures Reach(heap, value, ToSource(heap, value, []).visited)
  {
    hide Layout, ToSource, ClosedUnder, Referred;
    ExpandsReachable(heap, value, {});
    forall region: set<Obj> | ClosedUnder(heap, region) && Referred(heap, [Child(value)]) <= region
      ensures Elems(ToSource(heap, value, []).visited) <= region
    {
      ExpandsReachable(heap, value, region);
    }
  }

  lemma SameReach(heap: Heap, value: Value, a: seq<Obj>, b: seq<Obj>)
    requires Reach(heap, value, a) && Reach(heap, value, b)
    ensures Elems(a) == Elems(b)
  {
    hide ClosedUnder, Referred, Elems;
    assert Elems(a) <= Elems(b) && Elems(b) <= Elems(a);
  }

  lemma {:induction false} OneOfTargets(heap: Heap, objects: seq<Obj>, o: Obj)
    requires o in objects
    ensures ReferredBy(heap, o) <= Elems(TargetsOf(heap, objects))
  {
    hide Layout, Targets, Referred;
    if objects[0] == o {
      if o in heap && Tracked(heap[o]) {
        TargetsAreReferred(heap, Layout(heap, heap[o]));
      }
    } else {
      OneOfTargets(heap, objects[1..], o);
    }
  }

  lemma {:induction false} TargetsWithin(heap: Heap, objects: seq<Obj>, region: set<Obj>)
    requires ClosedUnder(heap, region) && Elems(objects) <= region
    ensures Elems(TargetsOf(heap, objects)) <= region
  {
    hide Layout, Targets, Referred;
    if objects != [] {
      assert objects[0] in Elems(objects) && Elems(objects[1..]) <= Elems(objects);
      TargetsWithin(heap, objects[1..], region);
      if objects[0] in heap && Tracked(heap[objects[0]]) {
        TargetsAreReferred(heap, Layout(heap, heap[objects[0]]));
        assert ReferredBy(heap, objects[0]) <= region;
      }
    }
  }

  /** What can be reached is exactly what is referred to. */
  lemma ReachIsReferred(heap: Heap, value: Value, objects: seq<Obj>)
    requires Reach(heap, value, objects)
    ensures Elems(References(heap, value, objects)) == Elems(objects)
  {
    var all := References(heap, value, objects);
    TargetsAreReferred(heap, [Child(value)]);
    TargetsWithin(heap, objects, Elems(objects));
    forall o | o in Elems(all)
      ensures ReferredBy(heap, o) <= Elems(all)
    {
      assert o in Elems(objects);
      OneOfTargets(heap, objects, o);
    }
    assert ClosedUnder(heap, Elems(all));
  }

  /** As many references as objects means one for each. */
  lemma OneEach(references: seq<Obj>, objects: seq<Obj>)
    requires forall i, j :: 0 <= i < j < |objects| ==> objects[i] != objects[j]
    requires Elems(references) == Elems(objects)
    ensures |references| == |objects| <==> forall o :: o in objects ==> multiset(references)[o] == 1
  {
    var refs, objs := multiset(references), multiset(objects);
    forall o: Obj
      ensures if o in objects then objs[o] == 1 && refs[o] >= 1 else objs[o] == refs[o] == 0
    {
      if o in objects {
        Distinct(objects, o);
        assert o in Elems(objects);
      } else {
        assert o !in Elems(objects);
      }
    }
    assert refs == objs + (refs - objs);
    if |references| == |objects| {
      assert |refs - objs| == 0;
      assert refs == objs;
    }
    if forall o :: o in objects ==> refs[o] == 1 {
      assert forall o: Obj :: refs[o] == objs[o];
      assert refs == objs && |refs| == |references|;
    }
  }

  lemma {:induction false} Distinct(objects: seq<Obj>, o: Obj)
    requires o in objects && forall i, j :: 0 <= i < j < |objects| ==> objects[i] != objects[j]
    ensures multiset(objects)[o] == 1
  {
    var rest := objects[1..];
    assert objects == [objects[0]] + rest;
    if objects[0] == o {
      assert o !in rest;
    } else {
      assert o in rest;
      Distinct(rest, o);
    }
  }

  lemma SameRest(o: Obj, a: seq<Obj>, front: seq<Obj>, back: seq<Obj>)
    requires multiset([o] + a) == multiset(front + [o] + back)
    ensures multiset(a) == multiset(front + back)
  {
    assert multiset(a) == multiset([o] + a) - multiset{o};
    assert multiset(front + back) == multiset(front + [o] + back) - multiset{o};
  }

  /** The order in which objects are listed does not matter to the references counted from them. */
  lemma {:induction false} TargetsOfPermuted(heap: Heap, a: seq<Obj>, b: seq<Obj>)
    requires multiset(a) == multiset(b)
    ensures multiset(TargetsOf(heap, a)) == multiset(TargetsOf(heap, b))
  {
    hide TargetsOf;
    if a == [] {
      assert |b| == |multiset(b)| == 0;
    } else {
      assert a == [a[0]] + a[1..];
      var front, back := TakeOut(a[0], a[1..], b);
      TargetsOfPermuted(heap, a[1..], front + back);
      TargetsOfMiddle(heap, a[0], [], a[1..]);
      TargetsOfMiddle(heap, a[0], front, back);
      assert [] + [a[0]] == [a[0]] && [] + a[1..] == a[1..];
    }
  }

  lemma TakeOut(o: Obj, a: seq<Obj>, b: seq<Obj>) returns (front: seq<Obj>, back: seq<Obj>)
    requires multiset([o] + a) == multiset(b)
    ensures b == front + [o] + back && multiset(a) == multiset(front + back)
  {
    assert o in multiset([o] + a);
    var i :| 0 <= i < |b| && b[i] == o;
    front, back := b[..i], b[i + 1..];
    assert b == front + [o] + back;
    SameRest(o, a, front, back);
  }

  lemma TargetsOfMiddle(heap: Heap, o: Obj, front: seq<Obj>, back: seq<Obj>)
    ensures multiset(TargetsOf(heap, front + [o] + back)) == multiset(TargetsOf(heap, [o])) + multiset(TargetsOf(heap, front + back))
  {
    hide TargetsOf;
    TargetsOfJoin(heap, front + [o], back);
    TargetsOfJoin(heap, front, [o]);
    TargetsOfJoin(heap, front, back);
  }

  lemma SameElems(a: seq<Obj>, b: seq<Obj>)
    requires forall i, j :: 0 <= i < j < |a| ==> a[i] != a[j]
    requires forall i, j :: 0 <= i < j < |b| ==> b[i] != b[j]
    requires Elems(a) == Elems(b)
    ensures multiset(a) == multiset(b)
  {
    forall o: Obj
      ensures multiset(a)[o] == multiset(b)[o]
    {
      if o in a {
        assert o in Elems(b);
        Distinct(a, o);
        Distinct(b, o);
      } else {
        assert o !in Elems(b);
      }
    }
  }

  /** No mark is printed if and only if the reachable objects form a tree, however they are listed. */
  lemma {:induction false} UnmarkedIsTree(heap: Heap, value: Value, objects: seq<Obj>)
    requires Reach(heap, value, objects)
    ensures ToSource(heap, value, []).circles == 0 <==> IsTree(heap, value, objects)
  {
    var visited := ToSource(heap, value, []).visited;
    VisitedIsReach(heap, value);
    ValueMarks(heap, value, []);
    assert visited[0..] == visited;
    hide ToSource, ClosedUnder, Referred, Targets, TargetsOf;
    ReachIsReferred(heap, value, objects);
    OneEach(References(heap, value, objects), objects);
    SameReach(heap, value, visited, objects);
    SameElems(visited, objects);
    TargetsOfPermuted(heap, visited, objects);
    assert |visited| == |multiset(visited)| && |objects| == |multiset(objects)|;
    assert |TargetsOf(heap, visited)| == |multiset(TargetsOf(heap, visited))|;
    assert |TargetsOf(heap, objects)| == |multiset(TargetsOf(heap, objects))|;
  }

  // ---------- right and wrong marks ----------

  /**
    The printer with a second list, of the objects whose text is finished. A mark closes a cycle if
    its object is visited and not finished, and repeats a finished object otherwise.
  */
  datatype Walk = Walk(visited: seq<Obj>, done: seq<Obj>, cycles: nat, repeats: nat)

  function WalkValue(heap: Heap, value: Value, visited: seq<Obj>, done: seq<Obj>): (r: Walk)
    requires Sound(heap, visited)
    ensures Sound(heap, r.visited) && visited <= r.visited
    decreases Unvisited(heap, visited), 0, 0
  {
    if !Refers(heap, Child(value)) then Walk(visited, done, 0, 0)
    else if value.obj in visited then
      if value.obj in done then Walk(visited, done, 0, 1) else Walk(visited, done, 1, 0)
    else
      assert Unvisited(heap, visited + [value.obj]) < Unvisited(heap, visited) by {
        assert value.obj in Unvisited(heap, visited) && value.obj !in Unvisited(heap, visited + [value.obj]);
      }
      var inner := WalkPieces(heap, Layout(heap, heap[value.obj]), visited + [value.obj], done);
      inner.(done := inner.done + [value.obj])
  }

  function WalkPieces(heap: Heap, pieces: seq<Piece>, visited: seq<Obj>, done: seq<Obj>): (r: Walk)
    requires Sound(heap, visited)
    ensures Sound(heap, r.visited) && visited <= r.visited
    decreases Unvisited(heap, visited), 1, |pieces|
  {
    if pieces == [] then Walk(visited, done, 0, 0)
    else
      var first := if pieces[0].Text? then Walk(visited, done, 0, 0) else WalkValue(heap, pieces[0].value, visited, done);
      UnvisitedShrinks(heap, visited, first.visited);
      var rest := WalkPieces(heap, pieces[1..], first.visited, first.done);
      rest.(cycles := first.cycles + rest.cycles, repeats := first.repeats + rest.repeats)
  }

  lemma {:induction false} WalkValueAgrees(heap: Heap, value: Value, visited: seq<Obj>, done: seq<Obj>)
    requires Sound(heap, visited)
    ensures var w, r := WalkValue(heap, value, visited, done), ToSource(heap, value, visited);
            w.visited == r.visited && w.cycles + w.repeats == r.circles
    decreases Unvisited(heap, visited), 0, 0
  {
    hide Layout;
    if Refers(heap, Child(value)) && value.obj !in visited {
      assert value.obj in Unvisited(heap, visited) && value.obj !in Unvisited(heap, visited + [value.obj]);
      WalkPiecesAgrees(heap, Layout(heap, heap[value.obj]), visited + [value.obj], done);
    }
  }

  lemma {:induction false} WalkPiecesAgrees(heap: Heap, pieces: seq<Piece>, visited: seq<Obj>, done: seq<Obj>)
    requires Sound(heap, visited)
    ensures var w, r := WalkPieces(heap, pieces, visited, done), PrintPieces(heap, pieces, visited);
            w.visited == r.visited && w.cycles + w.repeats == r.circles
    decreases Unvisited(heap, visited), 1, |pieces|
  {
    hide ToSource, WalkValue;
    if pieces != [] {
      var first := if pieces[0].Text? then Walk(visited, done, 0, 0) else WalkValue(heap, pieces[0].value, visited, done);
      if pieces[0].Child? {
        WalkValueAgrees(heap, pieces[0].value, visited, done);
      }
      UnvisitedShrinks(heap, visited, first.visited);
      WalkPiecesAgrees(heap, pieces[1..], first.visited, first.done);
    }
  }

  function Open(visited: seq<Obj>, done: seq<Obj>): set<Obj> {
    Elems(visited) - Elems(done)
  }

  /** Whatever is visited on the way is finished on the way: the open objects are the same after a walk. */
  lemma {:induction false} ValueCloses(heap: Heap, value: Value, visited: seq<Obj>, done: seq<Obj>)
    requires Sound(heap, visited) && Elems(done) <= Elems(visited)
    ensures var w := WalkValue(heap, value, visited, done);
            done <= w.done && Elems(w.done) <= Elems(w.visited) && Open(w.visited, w.done) == Open(visited, done)
    decreases Unvisited(heap, visited), 0, 0
  {
    hide Layout, WalkPieces;
    if Refers(heap, Child(value)) && value.obj !in visited {
      var o := value.obj;
      assert o in Unvisited(heap, visited) && o !in Unvisited(heap, visited + [o]);
      assert Elems(visited + [o]) == Elems(visited) + {o} && o !in Elems(visited);
      PiecesClose(heap, Layout(heap, heap[o]), visited + [o], done);
      var inner := WalkPieces(heap, Layout(heap, heap[o]), visited + [o], done);
      assert Elems(inner.done + [o]) == Elems(inner.done) + {o};
      assert Open(visited + [o], done) == Open(visited, done) + {o};
      assert Open(inner.visited, inner.done + [o]) == Open(inner.visited, inner.done) - {o};
    }
  }

  lemma {:induction false} PiecesClose(heap: Heap, pieces: seq<Piece>, visited: seq<Obj>, done: seq<Obj>)
    requires Sound(heap, visited) && Elems(done) <= Elems(visited)
    ensures var w := WalkPieces(heap, pieces, visited, done);
            done <= w.done && Elems(w.done) <= Elems(w.visited) && Open(w.visited, w.done) == Open(visited, done)
    decreases Unvisited(heap, visited), 1, |pieces|
  {
    hide WalkValue, Open, Elems;
    if pieces != [] {
      var first := if pieces[0].Text? then Walk(visited, done, 0, 0) else WalkValue(heap, pieces[0].value, visited, done);
      if pieces[0].Child? {
        ValueCloses(heap, pieces[0].value, visited, done);
      }
      UnvisitedShrinks(heap, visited, first.visited);
      PiecesClose(heap, pieces[1..], first.visited, first.done);
    }
  }

  /** Objects can be numbered so that every reference between them goes to a smaller number. */
  predicate Descends(heap: Heap, objects: set<Obj>, rank: map<Obj, nat>) {
    forall o :: o in objects ==> o in rank && forall c :: c in ReferredBy(heap, o) ==> c in rank && rank[c] < rank[o]
  }

  ghost predicate Acyclic(heap: Heap, objects: set<Obj>) {
    exists rank :: Descends(heap, objects, rank)
  }

  predicate Below(roots: set<Obj>, open: set<Obj>, rank: map<Obj, nat>) {
    forall c, o :: c in roots && o in open ==> c in rank && o in rank && rank[c] < rank[o]
  }

  /** Where there is no cycle no mark closes one. */
  lemma {:induction false} ValueWithoutCycle(heap: Heap, value: Value, visited: seq<Obj>, done: seq<Obj>, region: set<Obj>, rank: map<Obj, nat>)
    requires Sound(heap, visited) && Elems(done) <= Elems(visited)
    requires ClosedUnder(heap, region) && Descends(heap, region, rank)
    requires Referred(heap, [Child(value)]) <= region && Below(Referred(heap, [Child(value)]), Open(visited, done), rank)
    ensures WalkValue(heap, value, visited, done).cycles == 0
    decreases Unvisited(heap, visited), 0, 0
  {
    hide Layout, WalkPieces;
    if Refers(heap, Child(value)) {
      var o := value.obj;
      assert o in Referred(heap, [Child(value)]) by {
        assert Child(value) in [Child(value)];
      }
      assert o !in Open(visited, done);
      if o !in visited {
        assert o in Unvisited(heap, visited) && o !in Unvisited(heap, visited + [o]);
        assert Elems(visited + [o]) == Elems(visited) + {o} && o !in Elems(done);
        assert Open(visited + [o], done) == Open(visited, done) + {o};
        assert Referred(heap, Layout(heap, heap[o])) == ReferredBy(heap, o);
        PiecesWithoutCycle(heap, Layout(heap, heap[o]), visited + [o], done, region, rank);
      } else {
        assert o in Elems(visited) && o in Elems(done);
      }
    }
  }

  lemma {:induction false} PiecesWithoutCycle(heap: Heap, pieces: seq<Piece>, visited: seq<Obj>, done: seq<Obj>, region: set<Obj>, rank: map<Obj, nat>)
    requires Sound(heap, visited) && Elems(done) <= Elems(visited)
    requires ClosedUnder(heap, region) && Descends(heap, region, rank)
    requires Referred(heap, pieces) <= region && Below(Referred(heap, pieces), Open(visited, done), rank)
    ensures WalkPieces(heap, pieces, visited, done).cycles == 0
    decreases Unvisited(heap, visited), 1, |pieces|
  {
    if pieces != [] {
      ReferredCons(heap, pieces);
      var first := if pieces[0].Text? then Walk(visited, done, 0, 0) else WalkValue(heap, pieces[0].value, visited, done);
      if pieces[0].Child? {
        assert [pieces[0]] == [Child(pieces[0].value)];
        ValueWithoutCycle(heap, pieces[0].value, visited, done, region, rank);
        ValueCloses(heap, pieces[0].value, visited, done);
      }
      UnvisitedShrinks(heap, visited, first.visited);
      hide WalkValue, Open, Elems, ClosedUnder, Descends, Referred;
      PiecesWithoutCycle(heap, pieces[1..], first.visited, first.done, region, rank);
    }
  }

  /** Every object refers only to objects finished before it. */
  predicate Ordered(heap: Heap, done: seq<Obj>) {
    forall i :: 0 <= i < |done| ==> ReferredBy(heap, done[i]) <= Elems(done[..i])
  }

  /** Without a mark that closes a cycle, objects are finished after all they refer to. */
  lemma {:induction false} ValueOrdered(heap: Heap, value: Value, visited: seq<Obj>, done: seq<Obj>)
    requires Sound(heap, visited) && Ordered(heap, done) && WalkValue(heap, value, visited, done).cycles == 0
    ensures var w := WalkValue(heap, value, visited, done);
            done <= w.done && Ordered(heap, w.done) && Referred(heap, [Child(value)]) <= Elems(w.done)
    decreases Unvisited(heap, visited), 0, 0
  {
    hide Layout, WalkPieces;
    if Refers(heap, Child(value)) {
      var o := value.obj;
      assert Referred(heap, [Child(value)]) == {o};
      if o !in visited {
        assert o in Unvisited(heap, visited) && o !in Unvisited(heap, visited + [o]);
        PiecesOrdered(heap, Layout(heap, heap[o]), visited + [o], done);
        var inner := WalkPieces(heap, Layout(heap, heap[o]), visited + [o], done);
        OrderedSnoc(heap, inner.done, o);
      }
    } else {
      assert Referred(heap, [Child(value)]) == {};
    }
  }

  lemma OrderedSnoc(heap: Heap, done: seq<Obj>, o: Obj)
    requires Ordered(heap, done) && ReferredBy(heap, o) <= Elems(done)
    ensures Ordered(heap, done + [o])
  {
    var after := done + [o];
    forall i | 0 <= i < |after|
      ensures ReferredBy(heap, after[i]) <= Elems(after[..i])
    {
      assert after[..i] == done[..i];
      assert done[..|done|] == done;
    }
  }

  lemma {:induction false} PiecesOrdered(heap: Heap, pieces: seq<Piece>, visited: seq<Obj>, done: seq<Obj>)
    requires Sound(heap, visited) && Ordered(heap, done) && WalkPieces(heap, pieces, visited, done).cycles == 0
    ensures var w := WalkPieces(heap, pieces, visited, done);
            done <= w.done && Ordered(heap, w.done) && Referred(heap, pieces) <= Elems(w.done)
    decreases Unvisited(heap, visited), 1, |pieces|
  {
    if pieces != [] {
      ReferredCons(heap, pieces);
      var first := if pieces[0].Text? then Walk(visited, done, 0, 0) else WalkValue(heap, pieces[0].value, visited, done);
      if pieces[0].Child? {
        assert [pieces[0]] == [Child(pieces[0].value)];
        ValueOrdered(heap, pieces[0].value, visited, done);
      } else {
        assert Referred(heap, [pieces[0]]) == {};
      }
      UnvisitedShrinks(heap, visited, first.visited);
      hide WalkValue, Ordered, Referred;
      PiecesOrdered(heap, pieces[1..], first.visited, first.done);
      ElemsGrow(first.done, WalkPieces(heap, pieces, visited, done).done);
    }
  }

  function IndexOf(done: seq<Obj>, o: Obj): (i: nat)
    requires o in done
    ensures i < |done| && done[i] == o && o !in done[..i]
  {
    if done[0] == o then 0 else
      var i := IndexOf(done[1..], o);
      assert done[..i + 1] == [done[0]] + done[1..][..i];
      i + 1
  }

  lemma {:induction false} FirstIndex(done: seq<Obj>, o: Obj, j: nat)
    requires j < |done| && done[j] == o
    ensures IndexOf(done, o) <= j
  {
    if done[0] != o {
      FirstIndex(done[1..], o, j - 1);
    }
  }

  lemma OrderedIsAcyclic(heap: Heap, done: seq<Obj>)
    requires Ordered(heap, done)
    ensures Acyclic(heap, Elems(done))
  {
    var rank := map o | o in Elems(done) :: IndexOf(done, o);
    forall o, c | o in Elems(done) && c in ReferredBy(heap, o)
      ensures c in rank && rank[c] < rank[o]
    {
      var i := IndexOf(done, o);
      assert c in Elems(done[..i]);
      assert c in done;
      var j :| 0 <= j < i && done[j] == c;
      FirstIndex(done, c, j);
    }
    assert Descends(heap, Elems(done), rank);
  }

  /** Some mark closes a cycle if and only if a cycle can be reached. */
  lemma {:induction false} CycleIsMarked(heap: Heap, value: Value, objects: seq<Obj>)
    requires Reach(heap, value, objects)
    ensures WalkValue(heap, value, [], []).cycles > 0 <==> !Acyclic(heap, Elems(objects))
  {
    var w := WalkValue(heap, value, [], []);
    if Acyclic(heap, Elems(objects)) {
      var rank :| Descends(heap, Elems(objects), rank);
      ValueWithoutCycle(heap, value, [], [], Elems(objects), rank);
    }
    if w.cycles == 0 {
      ValueOrdered(heap, value, [], []);
      ValueCloses(heap, value, [], []);
      WalkValueAgrees(heap, value, [], []);
      VisitedIsReach(heap, value);
      assert Open([], []) == {};
      assert Elems(w.visited) == Elems(w.done);
      hide WalkValue, ToSource, Reach, Ordered, Open, Elems;
      SameReach(heap, value, objects, w.visited);
      OrderedIsAcyclic(heap, w.done);
    }
  }

  /**
    Where no cycle can be reached every mark is wrong, and the output is free of wrong marks if and
    only if the reachable objects form a tree.
  */
  lemma {:induction false} AcyclicIsRightOnTrees(heap: Heap, value: Value, objects: seq<Obj>)
    requires Reach(heap, value, objects) && Acyclic(heap, Elems(objects))
    ensures WalkValue(heap, value, [], []).repeats == ToSource(heap, value, []).circles
    ensures WalkValue(heap, value, [], []).repeats == 0 <==> IsTree(heap, value, objects)
  {
    CycleIsMarked(heap, value, objects);
    WalkValueAgrees(heap, value, [], []);
    UnmarkedIsTree(heap, value, objects);
  }
}
