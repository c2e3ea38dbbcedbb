/** `normalize_header_name` and `normalize_header_value` of builtins/web/fetch/headers.cpp. */
module HeaderText {
  import opened Wrappers

  datatype Error = EmptyName | InvalidName | InvalidValue

  /** A row of eight entries of the table `VALID_NAME_CHARS`. */
  function ValidNameChars(row: nat): (r: seq<int>)
    requires row < 16
    ensures |r| == 8
  {
    if row == 0 then [0, 0, 0, 0, 0, 0, 0, 0]
    else if row == 1 then [0, 0, 0, 0, 0, 0, 0, 0]
    else if row == 2 then [0, 0, 0, 0, 0, 0, 0, 0]
    else if row == 3 then [0, 0, 0, 0, 0, 0, 0, 0]
    else if row == 4 then [0, 1, 0, 1, 1, 1, 1, 1]
    else if row == 5 then [0, 0, 1, 1, 0, 1, 1, 0]
    else if row == 6 then [1, 1, 1, 1, 1, 1, 1, 1]
    else if row == 7 then [1, 1, 0, 0, 0, 0, 0, 0]
    else if row == 8 then [0, 1, 1, 1, 1, 1, 1, 1]
    else if row == 9 then [1, 1, 1, 1, 1, 1, 1, 1]
    else if row == 10 then [1, 1, 1, 1, 1, 1, 1, 1]
    else if row == 11 then [1, 1, 1, 0, 0, 0, 1, 1]
    else if row == 12 then [1, 1, 1, 1, 1, 1, 1, 1]
    else if row == 13 then [1, 1, 1, 1, 1, 1, 1, 1]
    else if row == 14 then [1, 1, 1, 1, 1, 1, 1, 1]
    else [1, 1, 1, 0, 1, 0, 1, 0]
  }

  /** A `tchar` of section 5.6.2 of RFC 9110. */
  predicate TokenChar(c: char) {
    || 'a' <= c <= 'z'
    || 'A' <= c <= 'Z'
    || '0' <= c <= '9'
    || c in "!#$%&'*+-.^_`|~"
  }

  /** The table marks the characters a token may have, and nothing else. */
  lemma TableIsTokenChars(c: char)
    requires c < 128 as char
    ensures ValidNameChars(c as int / 8)[c as int % 8] != 0 <==> TokenChar(c)
  {
    var row, column := c as int / 8, c as int % 8;
    assert c == (8 * row + column) as char;
    assert column == 0 || column == 1 || column == 2 || column == 3 || column == 4 || column == 5 || column == 6 || column == 7;
  }

  function LowerChar(c: char): char {
    if 'A' <= c <= 'Z' then c - 'A' + 'a' else c
  }

  function Lower(s: string): (l: string)
    ensures |l| == |s|
  {
    seq(|s|, i requires 0 <= i < |s| => LowerChar(s[i]))
  }

  function NormalName(name: string): Result<string, Error> {
    if name == "" then Err(EmptyName)
    else if forall c :: c in name ==> TokenChar(c) then Ok(Lower(name))
    else Err(InvalidName)
  }

  method NormalizeName(name: string) returns (normal: Result<string, Error>)
    ensures normal == NormalName(name)
  {
    if |name| == 0 {
      return Err(EmptyName);
    }
    var chars := new char[|name|](i requires 0 <= i < |name| => name[i]);
    var i := 0;
    while i < chars.Length
      invariant i <= chars.Length
      invariant forall k :: 0 <= k < i ==> TokenChar(name[k]) && chars[k] == LowerChar(name[k])
      invariant forall k :: i <= k < chars.Length ==> chars[k] == name[k]
    {
      var ch := chars[i];
      if ch >= 128 as char {
        assert !TokenChar(name[i]) && name[i] in name;
        return Err(InvalidName);
      }
      TableIsTokenChars(ch);
      if ValidNameChars(ch as int / 8)[ch as int % 8] == 0 {
        assert !TokenChar(name[i]) && name[i] in name;
        return Err(InvalidName);
      }
      if 'A' <= ch <= 'Z' {
        chars[i] := ch - 'A' + 'a';
      }
      i := i + 1;
    }
    assert chars[..] == Lower(name);
    normal := Ok(chars[..]);
  }

  /** A normal name is its own normal form, so names differing only in case name the same header. */
  lemma NormalNameIsStable(name: string)
    requires NormalName(name).Ok?
    ensures NormalName(NormalName(name).value) == NormalName(name)
  {
    var lower := Lower(name);
    forall c | c in lower
      ensures TokenChar(c) && LowerChar(c) == c
    {
      var k :| 0 <= k < |lower| && lower[k] == c;
      assert name[k] in name;
    }
    assert Lower(lower) == lower;
  }

  /** The same letter in either case, or the same character. */
  predicate SameButCase(a: char, b: char) {
    || a == b
    || ('a' <= a <= 'z' && a as int - 'a' as int == b as int - 'A' as int)
    || ('a' <= b <= 'z' && b as int - 'a' as int == a as int - 'A' as int)
  }

  /** Two names are normalised to the same one if and only if they differ in case at most, and no upper case is left. */
  lemma NamesDifferInCase(a: string, b: string)
    requires NormalName(a).Ok? && NormalName(b).Ok?
    ensures NormalName(a) == NormalName(b) <==> |a| == |b| && forall i :: 0 <= i < |a| ==> SameButCase(a[i], b[i])
    ensures var n := NormalName(a).value; |n| == |a| && forall i :: 0 <= i < |n| ==> SameButCase(n[i], a[i]) && !('A' <= n[i] <= 'Z')
  {
    assert forall i :: 0 <= i < |a| ==> Lower(a)[i] == LowerChar(a[i]);
    assert forall i :: 0 <= i < |b| ==> Lower(b)[i] == LowerChar(b[i]);
    if |a| == |b| && forall i :: 0 <= i < |a| ==> SameButCase(a[i], b[i]) {
      assert Lower(a) == Lower(b);
    }
  }

  /** A name is refused if and only if it is empty or has a character that a token may not have. */
  lemma NameRefused(name: string)
    ensures NormalName(name).Err? <==> |name| == 0 || exists i :: 0 <= i < |name| && !TokenChar(name[i])
  {
  }

  predicate Space(c: char) {
    c == '\t' || c == ' ' || c == '\r' || c == '\n'
  }

  predicate AllSpace(s: string) {
    forall c :: c in s ==> Space(c)
  }

  predicate Stripped(s: string) {
    s != "" ==> !Space(s[0]) && !Space(s[|s| - 1])
  }

  function TrimStart(s: string): string {
    if s != "" && Space(s[0]) then TrimStart(s[1..]) else s
  }

  function TrimEnd(s: string): string {
    if s != "" && Space(s[|s| - 1]) then TrimEnd(s[..|s| - 1]) else s
  }

  function Trim(s: string): string {
    TrimEnd(TrimStart(s))
  }

  /** What normalising a value gives: the string for the map and the bytes for the host. */
  datatype Value = Value(text: string, bytes: string)

  predicate Broken(s: string) {
    exists c :: c in s && (c == '\r' || c == '\n' || c == '\0')
  }

  function NormalValue(value: string): Result<Value, Error> {
    if Broken(Trim(value)) then Err(InvalidValue) else Ok(Value(Trim(value), value))
  }

  lemma {:induction false} TrimEndFrom(s: string, end: nat)
    requires end <= |s| && AllSpace(s[end..])
    ensures TrimEnd(s) == TrimEnd(s[..end])
    decreases |s|
  {
    if end < |s| {
      assert s[|s| - 1] in s[end..];
      assert AllSpace(s[..|s| - 1][end..]) by {
        assert forall c :: c in s[..|s| - 1][end..] ==> c in s[end..];
      }
      TrimEndFrom(s[..|s| - 1], end);
      assert s[..|s| - 1][..end] == s[..end];
    } else {
      assert s[..end] == s;
    }
  }

  lemma {:induction false} TrimStartFrom(s: string, start: nat)
    requires start <= |s| && AllSpace(s[..start])
    ensures TrimStart(s) == TrimStart(s[start..])
    decreases |s|
  {
    if start > 0 {
      assert s[0] in s[..start];
      assert AllSpace(s[1..][..start - 1]) by {
        assert forall c :: c in s[1..][..start - 1] ==> c in s[..start];
      }
      TrimStartFrom(s[1..], start - 1);
      assert s[1..][start - 1..] == s[start..];
    } else {
      assert s[start..] == s;
    }
  }

  /** Trimming is determined by its result: what is left when only white space is cut off both ends. */
  lemma TrimIs(s: string, start: nat, end: nat)
    requires start <= end <= |s| && AllSpace(s[..start]) && AllSpace(s[end..])
    requires Stripped(s[start..end])
    ensures Trim(s) == s[start..end]
  {
    TrimStartFrom(s, start);
    if start < end {
      assert s[start..][0] == s[start..end][0];
      assert TrimStart(s[start..]) == s[start..];
      TrimEndFrom(s[start..], end - start);
      assert s[start..][..end - start] == s[start..end];
    } else {
      AllSpaceTrims(s[start..]);
    }
  }

  lemma {:induction false} AllSpaceTrims(s: string)
    requires AllSpace(s)
    ensures TrimStart(s) == ""
  {
    if s != "" {
      assert s[0] in s;
      AllSpaceTrims(s[1..]);
    }
  }

  method NormalizeValue(value: string) returns (normal: Result<Value, Error>)
    ensures normal == NormalValue(value)
  {
    var start, end := 0, |value|;
    while start < end
      invariant start <= end == |value| && AllSpace(value[..start])
    {
      var ch := value[start];
      if !(ch == '\t' || ch == ' ' || ch == '\r' || ch == '\n') {
        break;
      }
      start := start + 1;
    }
    assert start < |value| ==> !Space(value[start]);
    while end > start
      invariant start <= end <= |value| && AllSpace(value[end..])
    {
      var ch := value[end - 1];
      if !(ch == '\t' || ch == ' ' || ch == '\r' || ch == '\n') {
        break;
      }
      end := end - 1;
    }
    TrimIs(value, start, end);
    for i := start to end
      invariant !Broken(value[start..i])
    {
      var ch := value[i];
      if ch == '\r' || ch == '\n' || ch == '\0' {
        assert ch in value[start..end];
        return Err(InvalidValue);
      }
      assert value[start..i + 1] == value[start..i] + [ch];
    }
    var text := value;
    if start != 0 || end != |value| {
      text := value[start..end];
    }
    normal := Ok(Value(text, value));
  }

  /** HTTP white space, by the Fetch Standard: tab, line feed, carriage return and space. */
  const HTTP_WHITESPACE := "\t\n\r "

  lemma SpaceIsHttpWhitespace(c: char)
    ensures Space(c) <==> exists k :: 0 <= k < 4 && HTTP_WHITESPACE[k] == c
  {
    assert HTTP_WHITESPACE[0] == '\t' && HTTP_WHITESPACE[1] == '\n' && HTTP_WHITESPACE[2] == '\r' && HTTP_WHITESPACE[3] == ' ';
  }

  /** A line break between two characters that are not white space. */
  predicate BreakInside(s: string, i: nat, j: nat, k: nat) {
    i < j < k < |s| && !Space(s[i]) && (s[j] == '\r' || s[j] == '\n') && !Space(s[k])
  }

  /** A value is refused if and only if it has a NUL, or a line break that is not in the white space at its ends. */
  lemma ValueRefused(value: string)
    ensures NormalValue(value).Err? <==> '\0' in value || exists i: nat, j: nat, k: nat :: BreakInside(value, i, j, k)
  {
    var start, end := Margins(value, 0, |value|);
    MarginsAllSpace(value, start, end);
    TrimIs(value, start, end);
    var text := value[start..end];
    assert NormalValue(value).Err? <==> Broken(text);
    if c :| c in text && (c == '\r' || c == '\n' || c == '\0') {
      BrokenInside(value, start, end, c);
    }
    if '\0' in value {
      var k :| 0 <= k < |value| && value[k] == '\0';
      InText(value, start, end, k);
    }
    if i: nat, j: nat, k: nat :| BreakInside(value, i, j, k) {
      InText(value, start, end, j);
    }
    hide Trim, AllSpace, Stripped;
  }

  lemma InText(value: string, start: nat, end: nat, j: nat)
    requires start <= j < end <= |value| && (value[j] == '\r' || value[j] == '\n' || value[j] == '\0')
    ensures Broken(value[start..end])
  {
    var text := value[start..end];
    assert text[j - start] == value[j] && value[j] in text;
  }

  lemma BrokenInside(value: string, start: nat, end: nat, c: char)
    requires start <= end <= |value| && Stripped(value[start..end]) && c in value[start..end] && (c == '\r' || c == '\n' || c == '\0')
    ensures '\0' in value || exists i: nat, j: nat, k: nat :: BreakInside(value, i, j, k)
  {
    var text := value[start..end];
    var j :| 0 <= j < |text| && text[j] == c;
    assert value[start + j] == c && value[start] == text[0] && value[end - 1] == text[|text| - 1];
    if c != '\0' {
      assert BreakInside(value, start, start + j, end - 1);
    }
  }

  lemma MarginsAllSpace(value: string, start: nat, end: nat)
    requires start <= end <= |value| && forall k :: 0 <= k < start || end <= k < |value| ==> Space(value[k])
    ensures AllSpace(value[..start]) && AllSpace(value[end..])
  {
  }

  /** Where trimming cuts. */
  lemma {:induction false} Margins(s: string, first: nat, last: nat) returns (start: nat, end: nat)
    requires first <= last <= |s| && forall k :: 0 <= k < first || last <= k < |s| ==> Space(s[k])
    ensures start <= end <= |s| && forall k :: 0 <= k < start || end <= k < |s| ==> Space(s[k])
    ensures Stripped(s[start..end])
    decreases last - first
  {
    if first < last && Space(s[first]) {
      start, end := Margins(s, first + 1, last);
    } else if first < last && Space(s[last - 1]) {
      start, end := Margins(s, first, last - 1);
    } else {
      start, end := first, last;
    }
  }

  /** The host is given the very text of the map exactly when the value had nothing to trim. */
  lemma HostTextAgrees(value: string)
    requires NormalValue(value).Ok?
    ensures NormalValue(value).value.bytes == NormalValue(value).value.text <==> Stripped(value)
  {
    if Stripped(value) {
      TrimIs(value, 0, |value|);
    } else {
      TrimShrinks(value);
    }
  }

  lemma TrimShrinks(s: string)
    requires !Stripped(s)
    ensures |Trim(s)| < |s|
  {
    TrimEndLength(TrimStart(s));
    TrimStartLength(s);
    if !Space(s[0]) {
      TrimEndLength(s[..|s| - 1]);
    } else {
      TrimStartLength(s[1..]);
    }
  }

  lemma {:induction false} TrimStartLength(s: string)
    ensures |TrimStart(s)| <= |s|
  {
    if s != "" {
      TrimStartLength(s[1..]);
    }
  }

  lemma {:induction false} TrimEndLength(s: string)
    ensures |TrimEnd(s)| <= |s|
  {
    if s != "" {
      TrimEndLength(s[..|s| - 1]);
    }
  }
}
