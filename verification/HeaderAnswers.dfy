/**
  What a program sees of a `Headers` object: what a name reads as after each change, in terms of what
  it read as before. Nothing here speaks of the object's contents, only of the answers of its methods.
*/
module HeaderAnswers {
  import opened CookieSplitter
  import opened HeaderCalls
  import opened HeaderText
  import opened Headers
  import opened Wrappers

  /** The answers of `has` and `get` for one name. */
  datatype Seen = Seen(has: Output, get: Output)

  function Absent(): Seen {
    Seen(Flag(false), Text(None))
  }

  function Present(text: string): Seen {
    Seen(Flag(true), Text(Some(text)))
  }

  /** What the two methods answer on the given contents. */
  function Looked(eager: Fields, name: string): Seen {
    Seen(EagerStep(eager, Call.Has(name)).1, EagerStep(eager, Call.Get(name)).1)
  }

  /** Both names are in order and do not name the same header. */
  predicate Different(a: string, b: string) {
    NormalName(a).Ok? && NormalName(b).Ok? && !(|a| == |b| && forall i :: 0 <= i < |a| ==> SameButCase(a[i], b[i]))
  }

  /** `has` is true if and only if `get` gives a text; a name that is refused is refused by both. */
  lemma HasIffGet(eager: Fields, name: string)
    ensures var seen := Looked(eager, name);
            if NormalName(name).Err? then seen.has == seen.get == Failed(NormalName(name).error)
            else seen == Absent() || (seen.get.Text? && seen.get.text.Some? && seen == Present(seen.get.text.value))
  {
  }

  lemma OtherNames(eager: Fields, after: Fields, name: string, other: string)
    requires Different(name, other) && forall n :: n != NormalName(name).value ==> (n in after <==> n in eager) && (n in after ==> after[n] == eager[n])
    ensures Looked(after, other) == Looked(eager, other)
  {
    NamesDifferInCase(name, other);
  }

  /** What a change makes the name read as, and that it leaves other names alone. */
  lemma SetReads(eager: Fields, name: string, value: string, other: string)
    ensures var (after, done) := EagerStep(eager, Call.Set(name, value));
            && (done.Failed? <==> NormalName(name).Err? || NormalValue(value).Err?)
            && (done.Failed? ==> after == eager)
            && (!done.Failed? ==> done == Undefined && Looked(after, name) == Present(Trim(value)))
            && (Different(name, other) ==> Looked(after, other) == Looked(eager, other))
  {
    hide Trim, NormalName, Lower;
    var (after, done) := EagerStep(eager, Call.Set(name, value));
    if Different(name, other) {
      OtherNames(eager, after, name, other);
    }
  }

  lemma AppendReads(eager: Fields, name: string, value: string, other: string)
    requires forall n :: n in eager ==> eager[n] != []
    ensures var (after, done) := EagerStep(eager, Call.Append(name, value));
            && (done.Failed? <==> NormalName(name).Err? || NormalValue(value).Err?)
            && (done.Failed? ==> after == eager)
            && (!done.Failed? ==>
                  && done == Undefined
                  && (Looked(eager, name) == Absent() ==> Looked(after, name) == Present(Trim(value)))
                  && (forall text :: Looked(eager, name) == Present(text) ==> Looked(after, name) == Present(text + ", " + Trim(value))))
            && (Different(name, other) ==> Looked(after, other) == Looked(eager, other))
  {
    hide Trim, NormalName, Lower, Join;
    var (after, done) := EagerStep(eager, Call.Append(name, value));
    if !done.Failed? {
      var n := NormalName(name).value;
      AddToEntry(if n in eager then eager[n] else [], Trim(value));
    }
    if Different(name, other) {
      OtherNames(eager, after, name, other);
    }
  }

  lemma DeleteReads(eager: Fields, name: string, other: string)
    ensures var (after, done) := EagerStep(eager, Call.Delete(name));
            && (done.Failed? <==> NormalName(name).Err?)
            && (done.Failed? ==> after == eager)
            && (!done.Failed? ==> done == Undefined && Looked(after, name) == Absent())
            && (Different(name, other) ==> Looked(after, other) == Looked(eager, other))
  {
    hide NormalName, Lower;
    var (after, done) := EagerStep(eager, Call.Delete(name));
    if Different(name, other) {
      OtherNames(eager, after, name, other);
    }
  }

  /** The host hears of a deletion only if the name was there. */
  lemma DeleteReachesHost(fields: Fields, eager: Fields, name: string)
    ensures var after := HostStep(fields, eager, Call.Delete(name));
            if Looked(eager, name) == Absent() || NormalName(name).Err? then after == fields else NormalName(name).value !in after
  {
    hide NormalName;
  }

  /** A look changes nothing that can be seen. */
  method Look(headers: Headers, name: string) returns (seen: Seen)
    requires headers.Valid()
    modifies headers
    ensures headers.Valid() && headers.eager == old(headers.eager) && headers.lazy == old(headers.lazy)
    ensures seen == Looked(headers.eager, name)
    ensures seen.has == Flag(true) <==> seen.get.Text? && seen.get.text.Some?
    ensures NormalName(name).Err? <==> seen.has.Failed? && seen.get.Failed?
  {
    hide EagerStep, Headers.Valid;
    HasIffGet(headers.eager, name);
    var has := headers.Has(name);
    var get := headers.Get(name);
    seen := Seen(has, get);
  }

  /** After `set` the name reads as the trimmed value, and no other name reads differently. */
  method SetThenLook(headers: Headers, name: string, value: string, other: string)
    returns (before: Seen, otherBefore: Seen, done: Output, after: Seen, otherAfter: Seen)
    requires headers.Valid()
    modifies headers, headers.handle
    ensures headers.Valid()
    ensures done.Failed? <==> NormalName(name).Err? || NormalValue(value).Err?
    ensures after == if done.Failed? then before else Present(Trim(value))
    ensures Different(name, other) ==> otherAfter == otherBefore
  {
    hide EagerStep, Headers.Valid, HttpHeaders.Valid, HostStep, SameBut, NormalName, NormalValue, Trim;
    before := Look(headers, name);
    otherBefore := Look(headers, other);
    SetReads(headers.eager, name, value, other);
    done := headers.Set(name, value);
    after := Look(headers, name);
    otherAfter := Look(headers, other);
  }

  /** After `append` the name reads as before with the trimmed value joined on, and no other name reads differently. */
  method AppendThenLook(headers: Headers, name: string, value: string, other: string)
    returns (before: Seen, otherBefore: Seen, done: Output, after: Seen, otherAfter: Seen)
    requires headers.Valid() && |value| < NPOS
    modifies headers, headers.handle
    ensures headers.Valid()
    ensures done.Failed? <==> NormalName(name).Err? || NormalValue(value).Err?
    ensures done.Failed? ==> after == before
    ensures !done.Failed? && before == Absent() ==> after == Present(Trim(value))
    ensures !done.Failed? && before != Absent() ==>
      before.get.Text? && before.get.text.Some? && after == Present(before.get.text.value + ", " + Trim(value))
    ensures Different(name, other) ==> otherAfter == otherBefore
  {
    hide EagerStep, HttpHeaders.Valid, HostStep, SameBut, NormalName, NormalValue, Trim, Join;
    assert forall n :: n in headers.eager ==> headers.eager[n] != [];
    hide Headers.Valid;
    HasIffGet(headers.eager, name);
    before := Look(headers, name);
    otherBefore := Look(headers, other);
    AppendReads(headers.eager, name, value, other);
    done := headers.Append(name, value);
    after := Look(headers, name);
    otherAfter := Look(headers, other);
  }

  /** After `delete` the name is absent, and no other name reads differently. */
  method DeleteThenLook(headers: Headers, name: string, other: string)
    returns (before: Seen, otherBefore: Seen, done: Output, after: Seen, otherAfter: Seen)
    requires headers.Valid()
    modifies headers, headers.handle
    ensures headers.Valid()
    ensures done.Failed? <==> NormalName(name).Err?
    ensures after == if done.Failed? then before else Absent()
    ensures Different(name, other) ==> otherAfter == otherBefore
    ensures before == Absent() ==> headers.HostFields() == old(headers.HostFields())
    ensures !done.Failed? && before != Absent() && headers.Refusals() == old(headers.Refusals()) ==>
      NormalName(name).value !in headers.HostFields()
  {
    hide EagerStep, Headers.Valid, HttpHeaders.Valid, HostStep, SameBut, NormalName;
    before := Look(headers, name);
    otherBefore := Look(headers, other);
    DeleteReads(headers.eager, name, other);
    DeleteReachesHost(headers.HostFields(), headers.eager, name);
    done := headers.Delete(name);
    after := Look(headers, name);
    otherAfter := Look(headers, other);
  }

  /** Fetching all values before an iteration does not change what a name reads as. */
  method DelazifyThenLook(headers: Headers, name: string) returns (before: Seen, after: Seen)
    requires headers.Valid()
    modifies headers
    ensures headers.Valid() && after == before
  {
    hide EagerStep, Headers.Valid;
    before := Look(headers, name);
    headers.EnsureAllHeaderValues();
    after := Look(headers, name);
  }

  /** A new object has exactly the names of the host's fields, in whatever case they are asked for, with all their values. */
  method NewThenLook(handle: HttpHeaders?, name: string) returns (seen: Seen)
    requires (handle != null ==> handle.Valid()) && NormalName(name).Ok?
    ensures var n := NormalName(name).value;
            seen == if handle != null && n in handle.fields then Present(Join(handle.fields[n], ", ")) else Absent()
  {
    hide HttpHeaders.Valid, Join, NormalName;
    var headers := new Headers(handle);
    hide Headers.Valid;
    seen := Look(headers, name);
  }

  /** `maybe_add` of a normal name appends if the name is absent, and changes nothing otherwise. */
  method MaybeAddThenLook(headers: Headers, name: string, value: string) returns (before: Seen, done: Output, after: Seen)
    requires headers.Valid() && |value| < NPOS && NormalName(name) == Ok(name)
    modifies headers, headers.handle
    ensures headers.Valid()
    ensures before != Absent() ==> done == Undefined && after == before
    ensures before == Absent() && !done.Failed? ==> after == Present(Trim(value))
    ensures done.Failed? ==> after == before && NormalValue(value).Err?
  {
    assert forall n :: n in headers.eager ==> headers.eager[n] != [];
    HasIffGet(headers.eager, name);
    AppendReads(headers.eager, name, value, name);
    hide EagerStep, HttpHeaders.Valid, HostStep, SameBut, NormalName, NormalValue, Trim, Join, Headers.Valid;
    before := Look(headers, name);
    InEager(headers.eager, name);
    done := headers.MaybeAdd(name, value);
    after := Look(headers, name);
  }

  lemma InEager(eager: Fields, name: string)
    requires NormalName(name) == Ok(name)
    ensures name in eager <==> Looked(eager, name) != Absent()
  {
  }

  /** The copy has the name if the original has it, with the same text, trimmed. */
  predicate Trimmed(original: Seen, copied: Seen) {
    if original == Absent() then copied == Absent()
    else original.get.Text? && original.get.text.Some? && copied == Present(Trim(original.get.text.value))
  }

  lemma CopyLooks(eager: Fields, name: string)
    requires NormalName(name).Ok?
    ensures Trimmed(Looked(eager, name), Looked(CopyWithout(eager, {}), name))
  {
    hide Join, Trim, NormalName;
    CopyReads(eager, NormalName(name).value);
    CopyHasNames(eager);
  }

  /** A copy made without a host reads as the original, trimmed, and has no other names. */
  method CopyThenLook(init: Headers, name: string) returns (original: Seen, copied: Option<Seen>)
    requires init.Valid() && AllNormal(init.eager) && forall n :: n in init.eager ==> |Join(init.eager[n], ", ")| < NPOS
    requires NormalName(name).Ok?
    modifies init
    ensures init.Valid()
    ensures copied.Some? ==> Trimmed(original, copied.value)
  {
    hide Trimmed, EagerStep, Looked, Join, NormalName, Copyable, CopyWithout, AllNormal, Headers.Valid, HttpHeaders.Valid;
    CopyLooks(init.eager, name);
    original := Look(init, name);
    var copy := CopyAlone(init);
    if copy.None? {
      return original, None;
    }
    var seen := Look(copy.value, name);
    copied := Some(seen);
  }

  method CopyAlone(init: Headers) returns (copy: Option<Headers>)
    requires init.Valid() && AllNormal(init.eager) && forall n :: n in init.eager ==> |Join(init.eager[n], ", ")| < NPOS
    modifies init
    ensures init.Valid()
    ensures copy.Some? ==> fresh(copy.value) && copy.value.Valid() && copy.value.handle == null
    ensures copy.Some? ==> copy.value.eager == CopyWithout(old(init.eager), {})
  {
    hide EagerStep, Join, Trim, NormalName, Copyable, CopyWithout, AllNormal, Headers.Valid, HttpHeaders.Valid;
    var result := CreateCopy(null, init);
    copy := if result.Ok? then Some(result.value) else None;
  }

  lemma CopyHasNames(eager: Fields)
    ensures CopyWithout(eager, {}).Keys == eager.Keys
  {
  }
}
