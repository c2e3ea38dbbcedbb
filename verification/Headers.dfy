/**
  The `Headers` class of builtins/web/fetch/headers.cpp: a map on the JavaScript side that copies the
  host's fields only when a value is needed, and passes every change on to the host.
*/
module Headers {
  import opened CookieSplitter
  import opened HeaderCalls
  import opened HeaderText
  import opened Wrappers

  /** Only the values of `name` differ. */
  ghost predicate SameBut(before: Fields, after: Fields, name: string) {
    forall n :: n != name ==> (n in after <==> n in before) && (n in after ==> after[n] == before[n])
  }

  /**
    The host's fields. Every field has a value, because the names are read off the list of all
    name-value pairs, and field names are in lower case, as the host normalises them: otherwise a
    change to one name could reach a field listed under another. The host may refuse any change, which
    the binding does not report, and refuses every change to immutable fields.
  */
  class HttpHeaders {
    const writable: bool
    var fields: Fields

    // How many changes the host has refused.
    ghost var refusals: nat

    ghost predicate Valid()
      reads this
    {
      forall n :: n in fields ==> fields[n] != [] && Lower(n) == n
    }

    constructor (fields: Fields, writable: bool)
      requires forall n :: n in fields ==> fields[n] != [] && Lower(n) == n
      ensures Valid() && this.fields == fields && this.writable == writable
    {
      this.fields := fields;
      this.writable := writable;
      refusals := 0;
    }

    method Get(name: string) returns (values: Option<seq<string>>)
      requires Valid()
      ensures values == if name in fields then Some(fields[name]) else None
    {
      values := if name in fields && |fields[name]| > 0 then Some(fields[name]) else None;
    }

    /** Whether the host takes the next change. */
    method Accepts() returns (accepted: bool)
      modifies this`refusals
      ensures accepted ==> writable
      ensures refusals == old(refusals) + if accepted then 0 else 1
    {
      accepted := *;
      accepted := accepted && writable;
      if !accepted { refusals := refusals + 1; }
    }

    method Set(name: string, value: string)
      requires Valid() && Lower(name) == name
      modifies this
      ensures Valid() && refusals >= old(refusals) && (!writable ==> refusals > old(refusals))
      ensures fields == if refusals == old(refusals) then old(fields)[name := [value]] else old(fields)
    {
      var accepted := Accepts();
      if accepted {
        fields := fields[name := [value]];
      }
    }

    method Append(name: string, value: string)
      requires Valid() && Lower(name) == name
      modifies this
      ensures Valid() && refusals >= old(refusals) && (!writable ==> refusals > old(refusals))
      ensures fields == if refusals == old(refusals) then AddValues(old(fields), name, [value]) else old(fields)
    {
      var accepted := Accepts();
      if accepted {
        fields := AddValues(fields, name, [value]);
      }
    }

    method Remove(name: string)
      requires Valid() && Lower(name) == name
      modifies this
      ensures Valid() && refusals >= old(refusals) && (!writable ==> refusals > old(refusals))
      ensures fields == if refusals == old(refusals) then old(fields) - {name} else old(fields)
    {
      var accepted := Accepts();
      if accepted {
        fields := fields - {name};
      }
    }
  }

  /** A map entry is either all values joined, or null for values still to be fetched from the host. */
  ghost predicate EntryOk(entry: Option<string>, values: seq<string>, hosted: Option<seq<string>>) {
    && values != []
    && match entry
       case Some(text) => text == Join(values, ", ")
       case None => hosted == Some(values)
  }

  lemma AddToEntry(values: seq<string>, value: string)
    ensures values != [] ==> Join(values + [value], ", ") == Join(values, ", ") + ", " + value
    ensures Join([value], ", ") == value && [] + [value] == [value]
  {
    if values != [] {
      JoinSnoc(values, value, ", ");
    }
  }

  lemma AddValuesSnoc(fields: Fields, name: string, xs: seq<string>, y: string)
    ensures AddValues(AddValues(fields, name, xs), name, [y]) == AddValues(fields, name, xs + [y])
  {
    var first := if name in fields then fields[name] else [];
    assert first + xs + [y] == first + (xs + [y]) && [] + [y] == [y];
  }

  lemma NormalIsLower(name: string)
    requires NormalName(name).Ok?
    ensures NormalName(name).value == Lower(name) && Lower(Lower(name)) == Lower(name)
  {
    NormalNameIsStable(name);
  }

  class Headers {
    var map_: map<string, Option<string>>
    var lazy: bool
    const handle: HttpHeaders?

    // What the calls so far amount to.
    ghost var eager: Fields

    ghost function Hosted(name: string): Option<seq<string>>
      reads this, handle
    {
      if lazy && handle != null && name in handle.fields then Some(handle.fields[name]) else None
    }

    ghost predicate Valid()
      reads this, handle
    {
      && (handle != null ==> handle.Valid())
      && (lazy ==> handle != null)
      && map_.Keys == eager.Keys
      && forall n :: n in map_ ==> EntryOk(map_[n], eager[n], Hosted(n))
    }

    /** The contents of the host's fields, or none without a host. */
    ghost function HostFields(): Fields
      reads this, handle
    {
      if handle == null then map[] else handle.fields
    }

    ghost function Refusals(): nat
      reads this, handle
    {
      if handle == null then 0 else handle.refusals
    }

    /** `create` with a handle only: every name the host lists gets a null entry. */
    constructor (handle: HttpHeaders?)
      requires handle != null ==> handle.Valid()
      ensures Valid() && this.handle == handle && lazy == (handle != null)
      ensures eager == if handle == null then map[] else handle.fields
    {
      this.handle := handle;
      map_ := map[];
      lazy := handle != null;
      eager := if handle == null then map[] else handle.fields;
      new;
      if handle != null {
        map_ := map name | name in handle.fields :: None;
      }
    }

    /** Appends to the map only, and gives the combined value. */
    method AppendHeaderValueToMap(name: string, value: string) returns (combined: string)
      modifies `map_
      ensures combined == if name in old(map_) && old(map_)[name].Some? then old(map_)[name].value + ", " + value else value
      ensures map_ == old(map_)[name := Some(combined)]
    {
      combined := value;
      if name in map_ && map_[name].Some? {
        combined := map_[name].value + ", " + value;
      }
      map_ := map_[name := Some(combined)];
    }

    method RetrieveValueForHeader(name: string) returns (value: Option<string>)
      requires Valid() && lazy && name in map_ && map_[name].None?
      modifies `map_
      ensures Valid() && value == Some(Join(eager[name], ", "))
      ensures map_ == old(map_)[name := value]
    {
      hide Join;
      var hosted := handle.Get(name);
      value := None;
      var values := hosted.value;
      assert values == eager[name];
      for k := 0 to |values|
        invariant k == 0 ==> map_ == old(map_)
        invariant k > 0 ==> value == Some(Join(values[..k], ", ")) && map_ == old(map_)[name := value]
      {
        AddToEntry(values[..k], values[k]);
        assert values[..k + 1] == values[..k] + [values[k]];
        var combined := AppendHeaderValueToMap(name, values[k]);
        value := Some(combined);
      }
      assert values[..|values|] == values;
    }

    /** The value is returned only while the headers are lazy, to spare a lookup otherwise. */
    method EnsureValueForHeader(name: string) returns (value: Option<string>)
      requires Valid()
      modifies `map_
      ensures Valid()
      ensures !lazy ==> map_ == old(map_) && value == None
      ensures lazy ==> value == Lookup(eager, name)
      ensures name in map_ ==> map_[name] == Some(Join(eager[name], ", "))
      ensures forall n :: n in old(map_) && n != name ==> map_[n] == old(map_)[n]
    {
      if !lazy {
        return None;
      }
      if name !in map_ {
        return None;
      }
      value := map_[name];
      if value.Some? {
        return;
      }
      value := RetrieveValueForHeader(name);
    }

    /** Run before iteration and before copying: afterwards the map holds every value. */
    method EnsureAllHeaderValues()
      requires Valid()
      modifies `map_, `lazy
      ensures Valid() && !lazy
      ensures map_ == map n | n in eager :: Some(Join(eager[n], ", "))
    {
      if lazy {
        var pending := map_.Keys;
        while pending != {}
          invariant Valid() && lazy
          invariant pending <= map_.Keys
          invariant forall n :: n in map_ && n !in pending ==> map_[n].Some?
          decreases pending
        {
          var name :| name in pending;
          var _ := EnsureValueForHeader(name);
          pending := pending - {name};
        }
        lazy := false;
      }
    }

    method Get(name: string) returns (output: Output)
      requires Valid()
      modifies `map_
      ensures Valid() && output == EagerStep(eager, Call.Get(name)).1
    {
      var normal := NormalizeName(name);
      if normal.Err? {
        return Failed(normal.error);
      }
      var value := EnsureValueForHeader(normal.value);
      if value.None? && normal.value in map_ {
        value := map_[normal.value];
      }
      output := Text(value);
    }

    method Has(name: string) returns (output: Output)
      requires Valid()
      ensures output == EagerStep(eager, Call.Has(name)).1
    {
      var normal := NormalizeName(name);
      if normal.Err? {
        return Failed(normal.error);
      }
      output := Flag(normal.value in map_);
    }

    method Set(name: string, value: string) returns (output: Output)
      requires Valid()
      modifies this, handle
      ensures Valid() && lazy == old(lazy)
      ensures (eager, output) == EagerStep(old(eager), Call.Set(name, value))
      ensures Refusals() >= old(Refusals()) && SameBut(old(HostFields()), HostFields(), Lower(name))
      ensures handle != null && Refusals() == old(Refusals()) ==> HostFields() == HostStep(old(HostFields()), old(eager), Call.Set(name, value))
      ensures HostFields() == old(HostFields()) || HostFields() == HostStep(old(HostFields()), old(eager), Call.Set(name, value))
      ensures handle != null && !handle.writable ==> HostFields() == old(HostFields())
    {
      var normal := NormalizeName(name);
      if normal.Err? {
        return Failed(normal.error);
      }
      var text := NormalizeValue(value);
      if text.Err? {
        return Failed(text.error);
      }
      NormalIsLower(name);
      if handle != null {
        handle.Set(normal.value, text.value.bytes);
      }
      map_ := map_[normal.value := Some(text.value.text)];
      eager := eager[normal.value := [text.value.text]];
      output := Undefined;
    }

    method Append(name: string, value: string) returns (output: Output)
      requires Valid() && |value| < NPOS
      modifies this, handle
      ensures Valid() && lazy == old(lazy)
      ensures (eager, output) == EagerStep(old(eager), Call.Append(name, value))
      ensures Refusals() >= old(Refusals()) && SameBut(old(HostFields()), HostFields(), Lower(name))
      ensures handle != null && Refusals() == old(Refusals()) ==> HostFields() == HostStep(old(HostFields()), old(eager), Call.Append(name, value))
      ensures handle != null && !handle.writable ==> HostFields() == old(HostFields())
    {
      var normal := NormalizeName(name);
      if normal.Err? {
        return Failed(normal.error);
      }
      var text := NormalizeValue(value);
      if text.Err? {
        return Failed(text.error);
      }
      NormalIsLower(name);
      AppendNormalized(normal.value, text.value);
      output := Undefined;
    }

    method AppendNormalized(name: string, value: Value)
      requires Valid() && |value.bytes| < NPOS && Lower(name) == name
      modifies this, handle
      ensures Valid() && lazy == old(lazy)
      ensures eager == AddValues(old(eager), name, [value.text])
      ensures Refusals() >= old(Refusals()) && SameBut(old(HostFields()), HostFields(), name)
      ensures handle != null && Refusals() == old(Refusals()) ==>
        HostFields() == AddValues(old(HostFields()), name, HostValues(name, value.bytes))
      ensures handle != null && !handle.writable ==> HostFields() == old(HostFields())
    {
      // Ensure that any host-side values have been applied on this side.
      var _ := EnsureValueForHeader(name);
      if handle != null {
        AppendToHost(name, value.bytes);
      }
      AddToEntry(if name in eager then eager[name] else [], value.text);
      var _ := AppendHeaderValueToMap(name, value.text);
      eager := AddValues(eager, name, [value.text]);
    }

    method AppendToHost(name: string, bytes: string)
      requires handle != null && handle.Valid() && |bytes| < NPOS && Lower(name) == name
      modifies handle
      ensures handle.Valid() && handle.refusals >= old(handle.refusals) && SameBut(old(handle.fields), handle.fields, name)
      ensures handle.refusals == old(handle.refusals) ==> handle.fields == AddValues(old(handle.fields), name, HostValues(name, bytes))
      ensures !handle.writable ==> handle.fields == old(handle.fields)
    {
      if name == "set-cookie" {
        var cookies := SplitCookiesString(bytes);
        AppendAll(name, cookies);
      } else {
        handle.Append(name, bytes);
      }
    }

    /** The loop that hands the cookies to the host one by one. */
    method AppendAll(name: string, values: seq<string>)
      requires handle != null && handle.Valid() && Lower(name) == name
      modifies handle
      ensures handle.Valid() && handle.refusals >= old(handle.refusals) && SameBut(old(handle.fields), handle.fields, name)
      ensures handle.refusals == old(handle.refusals) ==> handle.fields == AddValues(old(handle.fields), name, values)
      ensures !handle.writable ==> handle.fields == old(handle.fields)
    {
      for k := 0 to |values|
        invariant handle.Valid() && handle.refusals >= old(handle.refusals) && SameBut(old(handle.fields), handle.fields, name)
        invariant handle.refusals == old(handle.refusals) ==> handle.fields == AddValues(old(handle.fields), name, values[..k])
        invariant !handle.writable ==> handle.fields == old(handle.fields)
      {
        handle.Append(name, values[k]);
        AddValuesSnoc(old(handle.fields), name, values[..k], values[k]);
        assert values[..k + 1] == values[..k] + [values[k]];
      }
      assert values[..|values|] == values;
    }

    method Delete(name: string) returns (output: Output)
      requires Valid()
      modifies this, handle
      ensures Valid() && lazy == old(lazy)
      ensures (eager, output) == EagerStep(old(eager), Call.Delete(name))
      ensures Refusals() >= old(Refusals()) && SameBut(old(HostFields()), HostFields(), Lower(name))
      ensures handle != null && Refusals() == old(Refusals()) ==> HostFields() == HostStep(old(HostFields()), old(eager), Call.Delete(name))
      ensures HostFields() == old(HostFields()) || HostFields() == HostStep(old(HostFields()), old(eager), Call.Delete(name))
      ensures handle != null && !handle.writable ==> HostFields() == old(HostFields())
    {
      var normal := NormalizeName(name);
      if normal.Err? {
        return Failed(normal.error);
      }
      var has := normal.value in map_;
      map_ := map_ - {normal.value};
      eager := eager - {normal.value};
      output := Undefined;
      if !has {
        return;
      }
      NormalIsLower(name);
      if handle != null {
        handle.Remove(normal.value);
      }
    }

    /** Appends unless the name, taken as it is given, is in the map already. */
    method MaybeAdd(name: string, value: string) returns (output: Output)
      requires Valid() && |value| < NPOS
      modifies this, handle
      ensures Valid()
      ensures (eager, output) == if name in old(eager) then (old(eager), Undefined) else EagerStep(old(eager), Call.Append(name, value))
      ensures Refusals() >= old(Refusals()) && SameBut(old(HostFields()), HostFields(), Lower(name))
      ensures name in old(eager) ==> HostFields() == old(HostFields())
      ensures name !in old(eager) && handle != null && Refusals() == old(Refusals()) ==>
        HostFields() == HostStep(old(HostFields()), old(eager), Call.Append(name, value))
      ensures handle != null && !handle.writable ==> HostFields() == old(HostFields())
    {
      if name in map_ {
        return Undefined;
      }
      output := Append(name, value);
    }

    /** One call of a run. */
    method Perform(call: Call) returns (output: Output)
      requires Valid() && ((call.Set? || call.Append?) ==> |call.value| < NPOS)
      modifies this, handle
      ensures Valid()
      ensures (eager, output) == EagerStep(old(eager), call)
      ensures Refusals() >= old(Refusals())
      ensures handle != null && Refusals() == old(Refusals()) ==> HostFields() == HostStep(old(HostFields()), old(eager), call)
      ensures handle != null && !handle.writable ==> HostFields() == old(HostFields())
    {
      match call
      case Get(name) => output := Get(name);
      case Has(name) => output := Has(name);
      case Set(name, value) => output := Set(name, value);
      case Append(name, value) => output := Append(name, value);
      case Delete(name) => output := Delete(name);
      case Delazify =>
        EnsureAllHeaderValues();
        output := Undefined;
    }

    /**
      Over every run of calls the lazy headers answer as an eager multimap would, whichever changes the
      host refuses; and a host that has refused none holds the multimap too if every call is plain.
    */
    method Run(calls: seq<Call>) returns (outputs: seq<Output>)
      requires Valid() && forall c :: c in calls && (c.Set? || c.Append?) ==> |c.value| < NPOS
      modifies this, handle
      ensures Valid()
      ensures (eager, outputs) == EagerRun(old(eager), calls)
      ensures handle != null && Refusals() == old(Refusals()) && old(HostFields()) == old(eager) && (forall c :: c in calls ==> Plain(c)) ==>
        HostFields() == eager
      ensures handle != null && !handle.writable ==> HostFields() == old(HostFields())
    {
      hide Valid, EagerStep, HostStep;
      outputs := [];
      for k := 0 to |calls|
        invariant Valid()
        invariant (eager, outputs) == EagerRun(old(eager), calls[..k])
        invariant Refusals() >= old(Refusals())
        invariant handle != null && Refusals() == old(Refusals()) ==>
          HostFields() == HostRun(old(HostFields()), old(eager), calls[..k])
        invariant handle != null && !handle.writable ==> HostFields() == old(HostFields())
      {
        assert calls[..k + 1][..k] == calls[..k];
        var output := Perform(calls[k]);
        outputs := outputs + [output];
      }
      assert calls[..|calls|] == calls;
      if old(HostFields()) == old(eager) && forall c :: c in calls ==> Plain(c) {
        HostKeepsUpOverRun(old(eager), calls);
      }
    }
  }

  /** What `create` has made of the headers it copies, but for the names still pending: one value for each name. */
  function CopyWithout(eager: Fields, pending: set<string>): Fields {
    map n | n in eager && n !in pending :: [Trim(Join(eager[n], ", "))]
  }

  predicate Copyable(eager: Fields, name: string)
    requires name in eager
  {
    CheckedPair(name, Join(eager[name], ", ")).Ok?
  }

  predicate AllNormal(eager: Fields) {
    forall n :: n in eager ==> NormalName(n) == Ok(n)
  }

  /** A call fails exactly when its arguments are refused. */
  lemma OnlyCheckedFail(eager: Fields, call: Call)
    ensures EagerStep(eager, call).1.Failed? <==> Checked(call).Err?
  {
  }

  lemma CopyNext(eager: Fields, pending: set<string>, name: string)
    requires name in eager && name in pending && NormalName(name) == Ok(name) && Copyable(eager, name)
    ensures EagerStep(CopyWithout(eager, pending), Call.Append(name, Join(eager[name], ", "))).0 == CopyWithout(eager, pending - {name})
  {
    hide Join, Trim;
    var text := Trim(Join(eager[name], ", "));
    assert [] + [text] == [text];
  }

  /** A copy has the names of the original, and reads as the original's combined values, trimmed. */
  lemma CopyReads(eager: Fields, name: string)
    ensures Lookup(CopyWithout(eager, {}), name) == if name in eager then Some(Trim(Lookup(eager, name).value)) else None
  {
    if name in eager {
      AddToEntry([], Trim(Join(eager[name], ", ")));
    }
  }

  /** The loop of `create` that appends the entries one by one, up to the first that is refused. */
  method CopyEntries(headers: Headers, entries: map<string, Option<string>>, ghost eager: Fields) returns (failure: Option<Error>)
    requires headers.Valid() && entries == map n | n in eager :: Some(Join(eager[n], ", "))
    requires forall n :: n in eager ==> |Join(eager[n], ", ")| < NPOS
    modifies headers, headers.handle
    ensures headers.Valid()
    ensures failure.None? <==> forall n :: n in eager ==> Copyable(eager, n)
    ensures failure.None? && old(headers.eager) == map[] && AllNormal(eager) ==> headers.eager == CopyWithout(eager, {})
  {
    hide Join, Trim, EagerStep, HostStep, SameBut, Headers.Valid, HttpHeaders.Valid;
    ghost var plain := headers.eager == map[] && AllNormal(eager);
    var pending := entries.Keys;
    while pending != {}
      invariant pending <= entries.Keys && headers.Valid()
      invariant forall n :: n in entries && n !in pending ==> Copyable(eager, n)
      invariant plain ==> headers.eager == CopyWithout(eager, pending)
      decreases pending
    {
      var name :| name in pending;
      OnlyCheckedFail(headers.eager, Call.Append(name, entries[name].value));
      var output := headers.Append(name, entries[name].value);
      if output.Failed? {
        return Some(output.error);
      }
      if plain {
        CopyNext(eager, pending, name);
      }
      pending := pending - {name};
    }
    failure := None;
  }

  /** `create` with the headers to copy. */
  method CreateCopy(handle: HttpHeaders?, init: Headers) returns (copy: Result<Headers, Error>)
    requires handle != null ==> handle.Valid() && handle != init.handle
    requires init.Valid() && forall n :: n in init.eager ==> |Join(init.eager[n], ", ")| < NPOS
    modifies init`map_, init`lazy, handle
    ensures init.Valid() && !init.lazy
    ensures copy.Ok? <==> forall n :: n in init.eager ==> Copyable(init.eager, n)
    ensures copy.Ok? ==> fresh(copy.value) && copy.value.Valid() && copy.value.handle == handle
    ensures copy.Ok? && (handle == null || old(handle.fields) == map[]) && AllNormal(init.eager) ==>
      copy.value.eager == CopyWithout(init.eager, {})
  {
    hide Join, Trim, EagerStep, Headers.Valid, HttpHeaders.Valid, Copyable, AllNormal, CopyWithout;
    var headers := new Headers(handle);
    init.EnsureAllHeaderValues();
    var failure := CopyEntries(headers, init.map_, init.eager);
    copy := if failure.Some? then Err(failure.value) else Ok(headers);
  }
}
