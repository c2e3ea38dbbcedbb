/**
  What is printed, kind by kind: the texts of the parts, joined with commas and put in brackets. The
  parts are printed one after another, each with the objects that those before it have visited.
*/
module ValuePrinterText {
  import opened CookieSplitter
  import opened ValuePrinter
  import opened ValuePrinterState
  import opened Wrappers

  // ---------- numbers ----------

  function Digit(c: char): nat {
    if '0' <= c <= '9' then c as int - '0' as int else 0
  }

  function Number(digits: string): nat {
    if digits == "" then 0 else 10 * Number(digits[..|digits| - 1]) + Digit(digits[|digits| - 1])
  }

  /** A size is printed as the decimal number it is, without leading zeros. */
  lemma {:induction false} DecimalIsNumber(n: nat)
    ensures Number(Decimal(n)) == n && (forall c :: c in Decimal(n) ==> '0' <= c <= '9')
    ensures Decimal(n) != "" && (n > 0 ==> Decimal(n)[0] != '0')
  {
    DigitAt(n % 10);
    if n < 10 {
      assert Decimal(n) == ["0123456789"[n]];
      assert Decimal(n)[..0] == "" && Number("") == 0;
    } else {
      DecimalIsNumber(n / 10);
      assert Decimal(n)[..|Decimal(n)| - 1] == Decimal(n / 10);
    }
  }

  lemma DigitAt(d: nat)
    requires d < 10
    ensures var c := "0123456789"[d]; '0' <= c <= '9' && Digit(c) == d
  {
  }

  // ---------- parts ----------

  /** The texts of values printed one after another, and the objects visited then. */
  function Texts(heap: Heap, values: seq<Value>, visited: seq<Obj>): (r: (seq<string>, seq<Obj>))
    requires Sound(heap, visited)
    ensures |r.0| == |values| && Sound(heap, r.1) && visited <= r.1
  {
    if values == [] then ([], visited)
    else
      var front := Texts(heap, values[..|values| - 1], visited);
      var last := ToSource(heap, values[|values| - 1], front.1);
      (front.0 + [last.text], last.visited)
  }

  function EntryTexts(heap: Heap, entries: seq<(Value, Value)>, visited: seq<Obj>): (r: (seq<string>, seq<Obj>))
    requires Sound(heap, visited)
    ensures |r.0| == |entries| && Sound(heap, r.1) && visited <= r.1
  {
    if entries == [] then ([], visited)
    else
      var front := EntryTexts(heap, entries[..|entries| - 1], visited);
      var key := ToSource(heap, entries[|entries| - 1].0, front.1);
      var value := ToSource(heap, entries[|entries| - 1].1, key.visited);
      (front.0 + [key.text + " => " + value.text], value.visited)
  }

  /** What is not shown of an object: inherited accessors and inherited functions. */
  predicate Inherited(heap: Heap, p: Property) {
    !p.own && (p.accessor || (p.value.Ref? && p.value.obj in heap && heap[p.value.obj].Function?))
  }

  function NotInherited(heap: Heap, properties: seq<Property>): seq<Property> {
    if properties == [] then []
    else
      NotInherited(heap, properties[..|properties| - 1])
      + if Inherited(heap, properties[|properties| - 1]) then [] else [properties[|properties| - 1]]
  }

  /** The key, a colon, and the value or a mark for an accessor. */
  function PropertyText(heap: Heap, p: Property, visited: seq<Obj>): (r: (string, seq<Obj>))
    requires Sound(heap, visited)
    ensures Sound(heap, r.1) && visited <= r.1
  {
    var key := if p.key.Symbol? then p.key.source else p.key.text;
    if p.accessor then (key + ": " + "[Getter]", visited)
    else (key + ": " + ToSource(heap, p.value, visited).text, ToSource(heap, p.value, visited).visited)
  }

  function PropertyTexts(heap: Heap, properties: seq<Property>, visited: seq<Obj>): (r: (seq<string>, seq<Obj>))
    requires Sound(heap, visited)
    ensures |r.0| == |properties| && Sound(heap, r.1) && visited <= r.1
  {
    if properties == [] then ([], visited)
    else
      var front := PropertyTexts(heap, properties[..|properties| - 1], visited);
      var last := PropertyText(heap, properties[|properties| - 1], front.1);
      (front.0 + [last.0], last.1)
  }

  lemma PropertyTextsSnoc(heap: Heap, front: seq<Property>, p: Property, visited: seq<Obj>)
    requires Sound(heap, visited)
    ensures var texts := PropertyTexts(heap, front, visited);
            var last := PropertyText(heap, p, texts.1);
            PropertyTexts(heap, front + [p], visited) == (texts.0 + [last.0], last.1)
  {
    hide PropertyText;
    assert (front + [p])[..|front|] == front;
  }

  // ---------- pieces ----------

  /** The text of pieces and the objects visited then. */
  function Said(heap: Heap, pieces: seq<Piece>, visited: seq<Obj>): (r: (string, seq<Obj>))
    requires Sound(heap, visited)
    ensures Sound(heap, r.1) && visited <= r.1
  {
    (PrintPieces(heap, pieces, visited).text, PrintPieces(heap, pieces, visited).visited)
  }

  lemma SaidText(heap: Heap, pieces: seq<Piece>, text: string, visited: seq<Obj>)
    requires Sound(heap, visited)
    ensures Said(heap, pieces + [Text(text)], visited) == (Said(heap, pieces, visited).0 + text, Said(heap, pieces, visited).1)
  {
    PiecesSnoc(heap, pieces, Text(text), visited);
    hide PrintPieces;
  }

  lemma SaidChild(heap: Heap, pieces: seq<Piece>, value: Value, visited: seq<Obj>)
    requires Sound(heap, visited)
    ensures var before := Said(heap, pieces, visited);
            var child := ToSource(heap, value, before.1);
            Said(heap, pieces + [Child(value)], visited) == (before.0 + child.text, child.visited)
  {
    PiecesSnoc(heap, pieces, Child(value), visited);
    hide PrintPieces, ToSource;
  }

  lemma SaidNothing(heap: Heap, visited: seq<Obj>)
    requires Sound(heap, visited)
    ensures Said(heap, [], visited) == ("", visited)
  {
  }

  /** Pieces that begin with a text. */
  lemma SaidAfter(heap: Heap, text: string, pieces: seq<Piece>, visited: seq<Obj>)
    requires Sound(heap, visited)
    ensures Said(heap, [Text(text)] + pieces, visited) == (text + Said(heap, pieces, visited).0, Said(heap, pieces, visited).1)
  {
    assert ([Text(text)] + pieces)[1..] == pieces;
    hide ToSource;
  }

  lemma JoinOne(text: string, separator: string)
    ensures Join([text], separator) == text
  {
  }

  lemma JoinMore(texts: seq<string>, last: string)
    requires texts != []
    ensures Join(texts + [last], ", ") == Join(texts, ", ") + (", " + last)
  {
    JoinSnoc(texts, last, ", ");
  }

  lemma Regroup(a: string, b: string, c: string)
    ensures a + (b + c) == a + b + c
  {
  }

  predicate ElementsPrint(heap: Heap, values: seq<Value>, visited: seq<Obj>)
    requires Sound(heap, visited)
  {
    Said(heap, Elements(values), visited) == (Join(Texts(heap, values, visited).0, ", "), Texts(heap, values, visited).1)
  }

  lemma TextsSnoc(heap: Heap, front: seq<Value>, last: Value, visited: seq<Obj>)
    requires Sound(heap, visited)
    ensures var texts := Texts(heap, front, visited);
            var child := ToSource(heap, last, texts.1);
            Texts(heap, front + [last], visited) == (texts.0 + [child.text], child.visited)
  {
    hide ToSource;
    assert (front + [last])[..|front|] == front;
  }

  lemma OneMore(texts: seq<string>, text: string)
    ensures Join(texts + [text], ", ") == (if texts == [] then "" else Join(texts, ", ") + ", ") + text
  {
    if texts == [] {
      assert texts + [text] == [text] && "" + text == text;
      JoinOne(text, ", ");
    } else {
      JoinMore(texts, text);
      Regroup(Join(texts, ", "), ", ", text);
    }
  }

  lemma ElementsStep(heap: Heap, front: seq<Value>, last: Value, visited: seq<Obj>)
    requires Sound(heap, visited) && ElementsPrint(heap, front, visited)
    ensures ElementsPrint(heap, front + [last], visited)
  {
    hide ToSource, Said, Elements, Texts, Join;
    var texts := Texts(heap, front, visited);
    TextsSnoc(heap, front, last, visited);
    ElementsSnoc(front, last);
    OneMore(texts.0, ToSource(heap, last, texts.1).text);
    if front == [] {
      NoTexts(heap, visited);
      SaidNothing(heap, visited);
      SaidChild(heap, [], last, visited);
      assert [] + [Child(last)] == [Child(last)];
    } else {
      SaidText(heap, Elements(front), ", ", visited);
      SaidChild(heap, Elements(front) + [Text(", ")], last, visited);
    }
  }

  lemma NoTexts(heap: Heap, visited: seq<Obj>)
    requires Sound(heap, visited)
    ensures Texts(heap, [], visited) == ([], visited) && EntryTexts(heap, [], visited) == ([], visited)
  {
  }

  lemma {:induction false} ElementsSaid(heap: Heap, values: seq<Value>, visited: seq<Obj>)
    requires Sound(heap, visited)
    ensures ElementsPrint(heap, values, visited)
  {
    if values == [] {
      SaidNothing(heap, visited);
      NoTexts(heap, visited);
      hide Said;
    } else {
      hide ElementsPrint;
      var front, last := values[..|values| - 1], values[|values| - 1];
      ElementsSaid(heap, front, visited);
      ElementsStep(heap, front, last, visited);
      assert values == front + [last];
    }
  }

  lemma ElementsSnoc(front: seq<Value>, last: Value)
    ensures Elements(front + [last]) == if front == [] then [Child(last)] else Elements(front) + [Text(", ")] + [Child(last)]
    ensures (front + [last])[..|front|] == front
  {
    assert (front + [last])[..|front|] == front;
  }

  predicate EntriesPrint(heap: Heap, entries: seq<(Value, Value)>, visited: seq<Obj>)
    requires Sound(heap, visited)
  {
    Said(heap, Entries(entries), visited) == (Join(EntryTexts(heap, entries, visited).0, ", "), EntryTexts(heap, entries, visited).1)
  }

  lemma EntryTextsSnoc(heap: Heap, front: seq<(Value, Value)>, last: (Value, Value), visited: seq<Obj>)
    requires Sound(heap, visited)
    ensures var texts := EntryTexts(heap, front, visited);
            var key := ToSource(heap, last.0, texts.1);
            var value := ToSource(heap, last.1, key.visited);
            EntryTexts(heap, front + [last], visited) == (texts.0 + [key.text + " => " + value.text], value.visited)
  {
    hide ToSource;
    assert (front + [last])[..|front|] == front;
  }

  lemma EntriesStep(heap: Heap, front: seq<(Value, Value)>, last: (Value, Value), visited: seq<Obj>)
    requires Sound(heap, visited) && EntriesPrint(heap, front, visited)
    ensures EntriesPrint(heap, front + [last], visited)
  {
    hide ToSource, Said, Entries, EntryTexts, Join;
    var texts := EntryTexts(heap, front, visited);
    var key := ToSource(heap, last.0, texts.1);
    EntryTextsSnoc(heap, front, last, visited);
    EntriesSnoc(front, last);
    OneMore(texts.0, key.text + " => " + ToSource(heap, last.1, key.visited).text);
    if front == [] {
      NoTexts(heap, visited);
      SaidNothing(heap, visited);
      EntrySaid(heap, [], last, visited);
    } else {
      SaidText(heap, Entries(front), ", ", visited);
      EntrySaid(heap, Entries(front) + [Text(", ")], last, visited);
    }
  }

  lemma {:induction false} EntriesSaid(heap: Heap, entries: seq<(Value, Value)>, visited: seq<Obj>)
    requires Sound(heap, visited)
    ensures EntriesPrint(heap, entries, visited)
  {
    if entries == [] {
      SaidNothing(heap, visited);
      NoTexts(heap, visited);
      hide Said;
    } else {
      hide EntriesPrint;
      var front, last := entries[..|entries| - 1], entries[|entries| - 1];
      EntriesSaid(heap, front, visited);
      EntriesStep(heap, front, last, visited);
      assert entries == front + [last];
    }
  }

  lemma EntriesSnoc(front: seq<(Value, Value)>, last: (Value, Value))
    ensures Entries(front + [last]) ==
      (if front == [] then [] else Entries(front) + [Text(", ")]) + [Child(last.0)] + [Text(" => ")] + [Child(last.1)]
  {
    assert (front + [last])[..|front|] == front;
  }

  lemma EntrySaid(heap: Heap, pieces: seq<Piece>, entry: (Value, Value), visited: seq<Obj>)
    requires Sound(heap, visited)
    ensures var before := Said(heap, pieces, visited);
            var key := ToSource(heap, entry.0, before.1);
            var value := ToSource(heap, entry.1, key.visited);
            Said(heap, pieces + [Child(entry.0)] + [Text(" => ")] + [Child(entry.1)], visited)
            == (before.0 + (key.text + " => " + value.text), value.visited)
  {
    hide ToSource, Said;
    var before := Said(heap, pieces, visited);
    var key := ToSource(heap, entry.0, before.1);
    SaidChild(heap, pieces, entry.0, visited);
    SaidText(heap, pieces + [Child(entry.0)], " => ", visited);
    SaidChild(heap, pieces + [Child(entry.0)] + [Text(" => ")], entry.1, visited);
    RegroupThree(before.0, key.text, " => ", ToSource(heap, entry.1, key.visited).text);
  }

  lemma RegroupThree(a: string, b: string, c: string, d: string)
    ensures a + b + c + d == a + (b + c + d)
  {
    assert a + b + c == a + (b + c);
  }

  lemma {:induction false} PropertiesSaid(heap: Heap, properties: seq<Property>, visited: seq<Obj>)
    requires Sound(heap, visited)
    ensures var shown := NotInherited(heap, properties);
            var texts := PropertyTexts(heap, shown, visited);
            && (Properties(heap, properties) == [] <==> shown == [])
            && Said(heap, Properties(heap, properties), visited) == (if shown == [] then "" else " " + Join(texts.0, ", "), texts.1)
  {
    hide ToSource, PrintPieces, Said;
    if properties == [] {
      SaidNothing(heap, visited);
    } else {
      var front, p := properties[..|properties| - 1], properties[|properties| - 1];
      PropertiesSaid(heap, front, visited);
      assert properties == front + [p];
      if Inherited(heap, p) {
        PropertiesSkip(heap, front, p);
      } else {
        PropertySaid(heap, front, p, visited);
        ShownSnoc(heap, front, p);
      }
      hide Properties, NotInherited, PropertyTexts, Inherited, Join;
    }
  }

  lemma PropertiesSkip(heap: Heap, front: seq<Property>, p: Property)
    requires Inherited(heap, p)
    ensures Properties(heap, front + [p]) == Properties(heap, front) && NotInherited(heap, front + [p]) == NotInherited(heap, front)
  {
    assert (front + [p])[..|front|] == front;
  }

  lemma ShownSnoc(heap: Heap, front: seq<Property>, p: Property)
    requires !Inherited(heap, p)
    ensures NotInherited(heap, front + [p]) == NotInherited(heap, front) + [p]
  {
    assert (front + [p])[..|front|] == front;
  }

  /** One more property that is shown. */
  lemma PropertySaid(heap: Heap, front: seq<Property>, p: Property, visited: seq<Obj>)
    requires Sound(heap, visited) && !Inherited(heap, p)
    requires var shown := NotInherited(heap, front);
             var texts := PropertyTexts(heap, shown, visited);
             && (Properties(heap, front) == [] <==> shown == [])
             && Said(heap, Properties(heap, front), visited) == (if shown == [] then "" else " " + Join(texts.0, ", "), texts.1)
    ensures var shown := NotInherited(heap, front) + [p];
            var texts := PropertyTexts(heap, shown, visited);
            && Properties(heap, front + [p]) != []
            && Said(heap, Properties(heap, front + [p]), visited) == (" " + Join(texts.0, ", "), texts.1)
  {
    hide ToSource, PrintPieces, Said, NotInherited, PropertyText, Inherited;
    var shown := NotInherited(heap, front);
    var texts := PropertyTexts(heap, shown, visited);
    var separator := if shown == [] then " " else ", ";
    var text := PropertyText(heap, p, texts.1).0;
    PropertiesSnoc(heap, front, p);
    SaidText(heap, Properties(heap, front), separator, visited);
    KeySaid(heap, Properties(heap, front) + [Text(separator)], p, visited);
    PropertyTextsSnoc(heap, shown, p, visited);
    hide Properties, PropertyTexts;
    JoinedOn(texts.0, text);
  }

  lemma JoinedOn(texts: seq<string>, text: string)
    ensures " " + Join(texts + [text], ", ") == (if texts == [] then "" else " " + Join(texts, ", ")) + (if texts == [] then " " else ", ") + text
  {
    if texts == [] {
      assert texts + [text] == [text];
      JoinOne(text, ", ");
      assert "" + " " + text == " " + text;
    } else {
      JoinMore(texts, text);
      var joined := Join(texts, ", ");
      assert " " + joined + ", " + text == " " + (joined + (", " + text));
    }
  }

  lemma PropertiesSnoc(heap: Heap, front: seq<Property>, p: Property)
    requires !Inherited(heap, p)
    ensures Properties(heap, front + [p]) ==
      Properties(heap, front) + [Text(if Properties(heap, front) == [] then " " else ", ")]
      + [if p.key.Symbol? then Child(Other(p.key.source)) else Text(p.key.text)] + [Text(": ")]
      + [if p.accessor then Text("[Getter]") else Child(p.value)]
  {
    assert (front + [p])[..|front|] == front;
  }

  /** The pieces of a property, after the separator. */
  lemma KeySaid(heap: Heap, pieces: seq<Piece>, p: Property, visited: seq<Obj>)
    requires Sound(heap, visited)
    ensures var before := Said(heap, pieces, visited);
            var text := PropertyText(heap, p, before.1);
            Said(heap, pieces + [if p.key.Symbol? then Child(Other(p.key.source)) else Text(p.key.text)] + [Text(": ")]
                       + [if p.accessor then Text("[Getter]") else Child(p.value)], visited)
            == (before.0 + text.0, text.1)
  {
    hide PrintPieces, Said;
    var before := Said(heap, pieces, visited);
    var first := pieces + [if p.key.Symbol? then Child(Other(p.key.source)) else Text(p.key.text)];
    if p.key.Symbol? {
      SaidChild(heap, pieces, Other(p.key.source), visited);
    } else {
      SaidText(heap, pieces, p.key.text, visited);
    }
    hide ToSource;
    SaidText(heap, first, ": ", visited);
    var key := if p.key.Symbol? then p.key.source else p.key.text;
    if p.accessor {
      SaidText(heap, first + [Text(": ")], "[Getter]", visited);
      RegroupThree(before.0, key, ": ", "[Getter]");
    } else {
      SaidChild(heap, first + [Text(": ")], p.value, visited);
      RegroupThree(before.0, key, ": ", ToSource(heap, p.value, before.1).text);
    }
  }

  // ---------- kinds of values ----------

  predicate Fresh(heap: Heap, o: Obj, visited: seq<Obj>) {
    Sound(heap, visited) && o in heap && Tracked(heap[o]) && o !in visited
  }

  /** A new object is printed as its layout. */
  lemma LaidOut(heap: Heap, o: Obj, visited: seq<Obj>)
    requires Fresh(heap, o, visited)
    ensures Sound(heap, visited + [o])
    ensures var r := ToSource(heap, Ref(o), visited); (r.text, r.visited) == Said(heap, Layout(heap, heap[o]), visited + [o])
  {
    hide Layout, PrintPieces;
  }

  /** Texts around pieces. */
  lemma Around(heap: Heap, before: string, pieces: seq<Piece>, after: string, visited: seq<Obj>)
    requires Sound(heap, visited)
    ensures Said(heap, [Text(before)] + pieces + [Text(after)], visited) == (before + Said(heap, pieces, visited).0 + after, Said(heap, pieces, visited).1)
  {
    hide PrintPieces, Said;
    SaidAfter(heap, before, pieces, visited);
    SaidText(heap, [Text(before)] + pieces, after, visited);
  }

  lemma ArrayText(heap: Heap, o: Obj, visited: seq<Obj>)
    requires Fresh(heap, o, visited) && heap[o].Array?
    ensures Sound(heap, visited + [o])
    ensures var r, parts := ToSource(heap, Ref(o), visited), Texts(heap, heap[o].elements, visited + [o]);
            r.text == "[" + Join(parts.0, ", ") + "]" && r.visited == parts.1
  {
    LaidOut(heap, o, visited);
    hide ToSource, Said, Elements;
    ElementsSaid(heap, heap[o].elements, visited + [o]);
    Around(heap, "[", Elements(heap[o].elements), "]", visited + [o]);
  }

  /** Dates, errors, regular expressions and weak collections are printed as the engine gives them. */
  lemma LeafText(heap: Heap, o: Obj, visited: seq<Obj>)
    requires Fresh(heap, o, visited) && heap[o].Leaf?
    ensures var r := ToSource(heap, Ref(o), visited); r.text == heap[o].source && r.visited == visited + [o]
  {
    LaidOut(heap, o, visited);
    hide ToSource, Said;
    SaidNothing(heap, visited + [o]);
    SaidText(heap, [], heap[o].source, visited + [o]);
    assert Layout(heap, heap[o]) == [] + [Text(heap[o].source)];
  }

  lemma SetText(heap: Heap, o: Obj, visited: seq<Obj>)
    requires Fresh(heap, o, visited) && heap[o].SetObject?
    ensures Sound(heap, visited + [o])
    ensures var r, parts := ToSource(heap, Ref(o), visited), Texts(heap, heap[o].members, visited + [o]);
            r.text == "Set(" + Decimal(|heap[o].members|) + ") { " + Join(parts.0, ", ") + " }" && r.visited == parts.1
  {
    LaidOut(heap, o, visited);
    hide ToSource, Said, Elements;
    ElementsSaid(heap, heap[o].members, visited + [o]);
    Around(heap, "Set(" + Decimal(|heap[o].members|) + ") { ", Elements(heap[o].members), " }", visited + [o]);
  }

  lemma MapText(heap: Heap, o: Obj, visited: seq<Obj>)
    requires Fresh(heap, o, visited) && heap[o].MapObject?
    ensures Sound(heap, visited + [o])
    ensures var r, parts := ToSource(heap, Ref(o), visited), EntryTexts(heap, heap[o].entries, visited + [o]);
            r.text == "Map(" + Decimal(|heap[o].entries|) + ") { " + Join(parts.0, ", ") + " }" && r.visited == parts.1
  {
    LaidOut(heap, o, visited);
    hide ToSource, Said, Entries;
    EntriesSaid(heap, heap[o].entries, visited + [o]);
    Around(heap, "Map(" + Decimal(|heap[o].entries|) + ") { ", Entries(heap[o].entries), " }", visited + [o]);
  }

  /** Pieces in braces behind a prefix, with a space before the closing brace unless there are none. */
  function Braces(prefix: string, pieces: seq<Piece>): seq<Piece> {
    [Text(prefix), Text("{")] + pieces + (if pieces == [] then [] else [Text(" ")]) + [Text("}")]
  }

  lemma BracesSaid(heap: Heap, prefix: string, pieces: seq<Piece>, visited: seq<Obj>)
    requires Sound(heap, visited)
    ensures var body := Said(heap, pieces, visited);
            Said(heap, Braces(prefix, pieces), visited) == (prefix + ("{" + (if pieces == [] then "" else body.0 + " ") + "}"), body.1)
  {
    hide PrintPieces, Said;
    SaidNothing(heap, visited);
    var inner := if pieces == [] then [] else pieces + [Text(" ")];
    assert Braces(prefix, pieces) == [Text(prefix)] + ([Text("{")] + inner + [Text("}")]);
    hide Braces;
    SaidText(heap, pieces, " ", visited);
    Around(heap, "{", inner, "}", visited);
    SaidAfter(heap, prefix, [Text("{")] + inner + [Text("}")], visited);
  }

  lemma ObjectText(heap: Heap, o: Obj, visited: seq<Obj>)
    requires Fresh(heap, o, visited) && heap[o].Plain?
    ensures Sound(heap, visited + [o])
    ensures var r, shown := ToSource(heap, Ref(o), visited), NotInherited(heap, heap[o].properties);
            var parts := PropertyTexts(heap, shown, visited + [o]);
            var name := heap[o].className;
            && r.text == (if name.Some? && name.value != "Object" then name.value + " " else "")
                         + ("{" + (if shown == [] then "" else " " + Join(parts.0, ", ") + " ") + "}")
            && r.visited == parts.1
  {
    LaidOut(heap, o, visited);
    hide ToSource, Said, Properties;
    PropertiesSaid(heap, heap[o].properties, visited + [o]);
    BracesSaid(heap, Prefix(heap[o].className), Properties(heap, heap[o].properties), visited + [o]);
    hide PropertyTexts, NotInherited, Join;
  }

  lemma PromiseText(heap: Heap, o: Obj, visited: seq<Obj>)
    requires Fresh(heap, o, visited) && heap[o].Promise?
    ensures Sound(heap, visited + [o])
    ensures var r := ToSource(heap, Ref(o), visited);
            match heap[o].state
            case Pending => r.text == "Promise { " + "<pending> }"
            case Fulfilled(value) => r.text == "Promise { " + ToSource(heap, value, visited + [o]).text + " }"
            case Rejected(reason) => r.text == "Promise { " + ("<rejected> " + ToSource(heap, reason, visited + [o]).text) + " }"
  {
    LaidOut(heap, o, visited);
    hide ToSource, Said, PrintPieces;
    var all := visited + [o];
    SaidNothing(heap, all);
    match heap[o].state
    case Pending =>
      SaidText(heap, [], "<pending> }", all);
      SaidAfter(heap, "Promise { ", [] + [Text("<pending> }")], all);
      assert Layout(heap, heap[o]) == [Text("Promise { ")] + ([] + [Text("<pending> }")]);
      assert "" + "<pending> }" == "<pending> }";
    case Fulfilled(value) =>
      SaidChild(heap, [], value, all);
      Around(heap, "Promise { ", [] + [Child(value)], " }", all);
      assert Layout(heap, heap[o]) == [Text("Promise { ")] + ([] + [Child(value)]) + [Text(" }")];
      assert "" + ToSource(heap, value, all).text == ToSource(heap, value, all).text;
    case Rejected(reason) =>
      SaidChild(heap, [], reason, all);
      SaidAfter(heap, "<rejected> ", [] + [Child(reason)], all);
      Around(heap, "Promise { ", [Text("<rejected> ")] + ([] + [Child(reason)]), " }", all);
      assert Layout(heap, heap[o]) == [Text("Promise { ")] + ([Text("<rejected> ")] + ([] + [Child(reason)])) + [Text(" }")];
      assert "" + ToSource(heap, reason, all).text == ToSource(heap, reason, all).text;
  }

  lemma {:induction false} CommasJoin(texts: seq<string>)
    ensures Commas(texts) == Join(texts, ", ")
  {
    if texts != [] {
      var front, last := texts[..|texts| - 1], texts[|texts| - 1];
      CommasJoin(front);
      assert texts == front + [last];
      if front == [] {
        assert texts == [last] && Commas(front) == "";
        JoinOne(last, ", ");
        assert "" + "" + last == last;
      } else {
        JoinMore(front, last);
        Regroup(Join(front, ", "), ", ", last);
      }
    }
  }

  /** What is printed without a layout: primitive values, functions, typed arrays, and objects met before. */
  lemma PlainTexts(heap: Heap, visited: seq<Obj>, text: string, o: Obj)
    requires Sound(heap, visited)
    ensures ToSource(heap, Undefined, visited).text == "undefined" && ToSource(heap, Null, visited).text == "null"
    ensures ToSource(heap, String(text), visited).text == "\"" + text + "\"" && ToSource(heap, Other(text), visited).text == text
    ensures o in visited ==> ToSource(heap, Ref(o), visited).text == "<Circular>"
    ensures o in heap && heap[o].Function? ==>
      ToSource(heap, Ref(o), visited).text == if heap[o].name.Some? then "[Function " + heap[o].name.value + "]" else "[Function]"
    ensures o in heap && heap[o].TypedArray? ==>
      ToSource(heap, Ref(o), visited).text ==
        (if heap[o].className.Some? then heap[o].className.value + " " else "") + "[" + Join(heap[o].numbers, ", ") + "]"
  {
    if o in heap && heap[o].TypedArray? {
      CommasJoin(heap[o].numbers);
    }
    hide Layout, PrintPieces, Join, Commas;
  }
}
