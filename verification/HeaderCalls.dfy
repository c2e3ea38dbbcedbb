/**
  What a sequence of `Headers` calls means: an eager multimap from normal names to lists of values,
  and, beside it, what the same calls do to the host's fields.
*/
module HeaderCalls {
  import opened CookieSplitter
  import opened HeaderText
  import opened Wrappers

  type Fields = map<string, seq<string>>

  datatype Call =
    | Get(name: string)
    | Has(name: string)
    | Set(name: string, value: string)
    | Append(name: string, value: string)
    | Delete(name: string)
    | Delazify

  datatype Output = Text(text: Option<string>) | Flag(flag: bool) | Undefined | Failed(error: Error)

  /** The arguments of a call after normalisation, or the error it reports. */
  function Checked(call: Call): Result<(string, Value), Error> {
    match call
    case Delazify => Ok(("", Value("", "")))
    case Set(name, value) => CheckedPair(name, value)
    case Append(name, value) => CheckedPair(name, value)
    case _ =>
      match NormalName(call.name)
      case Err(e) => Err(e)
      case Ok(n) => Ok((n, Value("", "")))
  }

  function CheckedPair(name: string, value: string): Result<(string, Value), Error> {
    match NormalName(name)
    case Err(e) => Err(e)
    case Ok(n) =>
      match NormalValue(value)
      case Err(e) => Err(e)
      case Ok(v) => Ok((n, v))
  }

  function AddValues(fields: Fields, name: string, values: seq<string>): Fields {
    if values == [] then fields
    else fields[name := (if name in fields then fields[name] else []) + values]
  }

  function Lookup(fields: Fields, name: string): Option<string> {
    if name in fields then Some(Join(fields[name], ", ")) else None
  }

  function EagerStep(eager: Fields, call: Call): (Fields, Output) {
    match Checked(call)
    case Err(e) => (eager, Failed(e))
    case Ok((name, value)) =>
      match call
      case Get(_) => (eager, Text(Lookup(eager, name)))
      case Has(_) => (eager, Flag(name in eager))
      case Set(_, _) => (eager[name := [value.text]], Undefined)
      case Append(_, _) => (AddValues(eager, name, [value.text]), Undefined)
      case Delete(_) => (eager - {name}, Undefined)
      case Delazify => (eager, Undefined)
  }

  /** The values a call to append hands to the host. */
  function HostValues(name: string, bytes: string): seq<string> {
    if name == "set-cookie" then Split(bytes) else [bytes]
  }

  /** What the host's fields become when the host accepts the call. */
  function HostStep(fields: Fields, eager: Fields, call: Call): Fields {
    match Checked(call)
    case Err(_) => fields
    case Ok((name, value)) =>
      match call
      case Set(_, _) => fields[name := [value.bytes]]
      case Append(_, _) => AddValues(fields, name, HostValues(name, value.bytes))
      case Delete(_) => if name in eager then fields - {name} else fields
      case _ => fields
  }

  function EagerRun(eager: Fields, calls: seq<Call>): (r: (Fields, seq<Output>))
    ensures |r.1| == |calls|
  {
    if calls == [] then (eager, [])
    else
      var (before, outputs) := EagerRun(eager, calls[..|calls| - 1]);
      var (after, output) := EagerStep(before, calls[|calls| - 1]);
      (after, outputs + [output])
  }

  function HostRun(fields: Fields, eager: Fields, calls: seq<Call>): Fields {
    if calls == [] then fields
    else
      var before := calls[..|calls| - 1];
      HostStep(HostRun(fields, eager, before), EagerRun(eager, before).0, calls[|calls| - 1])
  }

  // ---------- when the host keeps up ----------

  /** The calls after which the host has the same values as the map. */
  predicate Plain(call: Call) {
    match call
    case Set(_, value) => Checked(call).Ok? ==> Stripped(value)
    case Append(name, value) =>
      Checked(call).Ok? ==>
        && Stripped(value)
        && (Lower(name) == "set-cookie" ==> value != "" && forall i :: 0 <= i < |value| ==> !IsCut(value, i))
    case _ => true
  }

  lemma AddedValues(fields: Fields, name: string, xs: seq<string>, y: string)
    ensures AddValues(fields, name, xs) == AddValues(fields, name, [y]) <==> xs == [y]
  {
    var first := if name in fields then fields[name] else [];
    if xs != [y] && xs != [] {
      assert (first + xs)[|first|..] == xs && (first + [y])[|first|..] == [y];
      assert AddValues(fields, name, xs)[name] != AddValues(fields, name, [y])[name];
    } else if xs == [] {
      assert AddValues(fields, name, [y])[name] == first + [y];
      assert name in fields ==> |fields[name]| != |first + [y]|;
    }
  }

  /** An appended value reaches the host as it stands in the map exactly when the call is plain. */
  lemma HostValuesAgree(name: string, value: string)
    requires NormalValue(value).Ok?
    ensures HostValues(name, value) == [Trim(value)] <==>
      Stripped(value) && (name == "set-cookie" ==> value != "" && forall i :: 0 <= i < |value| ==> !IsCut(value, i))
  {
    HostTextAgrees(value);
    if name == "set-cookie" {
      SplitWhole(value);
      if value != "" && Split(value) == [Trim(value)] {
        SplitThenJoin(value);
        assert Join([Trim(value)], ",") == Trim(value);
      }
    }
  }

  /** Starting from equal contents, map and host stay equal over a call if and only if it is plain. */
  lemma HostKeepsUp(fields: Fields, call: Call)
    ensures HostStep(fields, fields, call) == EagerStep(fields, call).0 <==> Plain(call)
  {
    match Checked(call)
    case Err(_) =>
    case Ok((name, value)) =>
      match call {
        case Set(_, v) =>
          HostTextAgrees(v);
          if value.bytes != value.text {
            assert HostStep(fields, fields, call)[name] != EagerStep(fields, call).0[name];
          }
        case Append(_, v) =>
          HostValuesAgree(name, v);
          AddedValues(fields, name, HostValues(name, value.bytes), value.text);
        case Delete(_) =>
          if name !in fields {
            assert fields - {name} == fields;
          }
        case _ =>
      }
  }

  lemma {:induction false} HostKeepsUpOverRun(fields: Fields, calls: seq<Call>)
    requires forall c :: c in calls ==> Plain(c)
    ensures HostRun(fields, fields, calls) == EagerRun(fields, calls).0
  {
    if calls != [] {
      var before, last := calls[..|calls| - 1], calls[|calls| - 1];
      assert forall c :: c in before ==> c in calls;
      HostKeepsUpOverRun(fields, before);
      assert last in calls;
      HostKeepsUp(EagerRun(fields, before).0, last);
    }
  }

  /** The names alone keep up over every call but one: appending an empty Set-Cookie gives the host no name. */
  lemma NamesKeepUp(fields: Fields, eager: Fields, call: Call)
    requires fields.Keys == eager.Keys
    ensures HostStep(fields, eager, call).Keys == EagerStep(eager, call).0.Keys <==>
      !(call.Append? && call.value == "" && NormalName(call.name) == Ok("set-cookie") && "set-cookie" !in eager)
  {
    if Checked(call).Ok? {
      var (name, value) := Checked(call).value;
      match call {
        case Append(_, v) =>
          if HostValues(name, v) == [] {
            assert name == "set-cookie" && v == "";
            assert Trim(v) == "" && !Broken(Trim(v));
            assert name in EagerStep(eager, call).0.Keys;
          }
        case _ =>
      }
    }
    if call.Append? && call.value == "" && NormalName(call.name) == Ok("set-cookie") && "set-cookie" !in eager {
      assert Trim("") == "" && !Broken(Trim(""));
      assert HostStep(fields, eager, call) == fields;
      assert "set-cookie" in EagerStep(eager, call).0.Keys;
    }
  }

  /** Two calls the host does not follow: a padded value, and a cookie list sent as several values. */
  lemma HostFallsBehind()
    ensures !Plain(Append("a", " x"))
    ensures HostStep(map[], map[], Append("a", " x")) == map["a" := [" x"]]
    ensures EagerStep(map[], Append("a", " x")).0 == map["a" := ["x"]]
    ensures !Plain(Append("set-cookie", "a=1,b=2"))
    ensures HostStep(map[], map[], Append("set-cookie", "a=1,b=2")) == map["set-cookie" := ["a=1", "b=2"]]
    ensures EagerStep(map[], Append("set-cookie", "a=1,b=2")).0 == map["set-cookie" := ["a=1,b=2"]]
  {
    PaddedFallsBehind();
    CookiesFallBehind();
  }

  lemma PaddedFallsBehind()
    ensures !Plain(Append("a", " x"))
    ensures HostStep(map[], map[], Append("a", " x")) == map["a" := [" x"]]
    ensures EagerStep(map[], Append("a", " x")).0 == map["a" := ["x"]]
  {
    assert NormalName("a") == Ok("a") by {
      assert Lower("a") == "a";
    }
    TrimIs(" x", 1, 2);
    assert " x"[1..2] == "x";
    assert Checked(Append("a", " x")) == Ok(("a", Value("x", " x")));
    assert [] + [" x"] == [" x"] && [] + ["x"] == ["x"];
    assert "a" != "set-cookie" by {
      assert |"set-cookie"| == 10;
    }
  }

  lemma CookiesSplit(s: string)
    requires s == "a=1,b=2"
    ensures |s| == 7 && IsCut(s, 3) && Split(s) == [s[..3], s[4..]]
  {
    FirstSpecialIs(s, 4, 5);
    PiecesFrom(s, 0, 3);
    LastPiece(s, 4);
    assert s[0..] == s && s[0..3] == s[..3];
  }

  lemma CookiesAreChecked(name: string, value: string)
    requires name == "set-cookie" && value == "a=1,b=2"
    ensures Lower(name) == name && Checked(Append(name, value)) == Ok((name, Value(value, value)))
  {
    assert Lower(name) == name;
    assert NormalName(name) == Ok(name);
    TrimIs(value, 0, 7);
    assert value[0..7] == value;
  }

  lemma AppendedToNothing(name: string, value: string)
    requires Checked(Append(name, value)) == Ok((name, Value(value, value))) && HostValues(name, value) != []
    ensures HostStep(map[], map[], Append(name, value)) == map[name := HostValues(name, value)]
    ensures EagerStep(map[], Append(name, value)).0 == map[name := [value]]
  {
    hide Checked, HostValues;
    assert [] + HostValues(name, value) == HostValues(name, value) && [] + [value] == [value];
  }

  lemma CookiesFallBehind()
    ensures !Plain(Append("set-cookie", "a=1,b=2"))
    ensures HostStep(map[], map[], Append("set-cookie", "a=1,b=2")) == map["set-cookie" := ["a=1", "b=2"]]
    ensures EagerStep(map[], Append("set-cookie", "a=1,b=2")).0 == map["set-cookie" := ["a=1,b=2"]]
  {
    hide Checked, HostStep, EagerStep, Split, IsCut, Lower;
    var name, value := "set-cookie", "a=1,b=2";
    CookiesAreChecked(name, value);
    CookiesSplit(value);
    AppendedToNothing(name, value);
    assert value[..3] == "a=1" && value[4..] == "b=2";
  }
}
