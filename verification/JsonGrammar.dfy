/** The strict grammar of RFC 8259 (sections 2 to 7) as a recursive-descent
    reader. It stands for the strict parser that the proxy client calls. An
    object keeps its member list as written; a number keeps its text. */
module JsonGrammar {
  import opened JsonText

  datatype Json =
    | JNull
    | JBool(b: bool)
    | JNumber(text: string)
    | JString(units: seq<nat>)
    | JArray(items: seq<Json>)
    | JObject(members: seq<Member>)

  datatype Member = Member(key: seq<nat>, value: Json)

  /** A reader either fails or returns a value and the unread suffix. */
  datatype Read<+T> = Fail | Ok(value: T, rest: string)

  function SkipSpace(s: string): (r: string)
    ensures |r| <= |s|
  {
    if s != [] && IsJsonSpace(s[0]) then SkipSpace(s[1..]) else s
  }

  /** Section 7, after the opening quotation mark. */
  function ReadString(s: string): (r: Read<seq<nat>>)
    ensures r.Ok? ==> |r.rest| < |s|
  {
    if s == [] then Fail
    else if s[0] == '"' then Ok([], s[1..])
    else if s[0] == '\\' then
      var n := EscapeLength(s);
      if n == 0 then Fail
      else
        var r := ReadString(s[n..]);
        if r.Ok? then Ok([EscapeUnit(s)] + r.value, r.rest) else Fail
    else if IsControl(s[0]) then Fail
    else
      var r := ReadString(s[1..]);
      if r.Ok? then Ok(Units(s[0]) + r.value, r.rest) else Fail
  }

  function CountDigits(s: string): (n: nat)
    ensures n <= |s|
    ensures forall i :: 0 <= i < n ==> IsDigit(s[i])
  {
    if s != [] && IsDigit(s[0]) then 1 + CountDigits(s[1..]) else 0
  }

  predicate IsNumberChar(c: char) {
    IsDigit(c) || c == '-' || c == '+' || c == '.' || c == 'e' || c == 'E'
  }

  /** Length of the integer part: an optional minus, then `0` or digits that
      do not start with `0`. */
  function IntLength(s: string): (n: nat)
    ensures n <= |s|
    ensures n > 0 ==> IsDigit(s[n - 1]) && forall i :: 0 <= i < n ==> IsNumberChar(s[i])
    ensures n > 0 ==> IsDigit(s[0]) || s[0] == '-'
  {
    var sign := if s != [] && s[0] == '-' then 1 else 0;
    var d := CountDigits(s[sign..]);
    if d == 0 then 0
    else
      assert forall i :: sign <= i < sign + d ==> s[i] == s[sign..][i - sign];
      if s[sign] == '0' then sign + 1 else sign + d
  }

  /** Length of `.` and at least one digit, or 0. */
  function FractionLength(s: string): (n: nat)
    ensures n <= |s|
    ensures n > 0 ==> IsDigit(s[n - 1]) && forall i :: 0 <= i < n ==> IsNumberChar(s[i])
  {
    if s == [] || s[0] != '.' then 0
    else
      var d := CountDigits(s[1..]);
      assert forall i :: 1 <= i < 1 + d ==> s[i] == s[1..][i - 1];
      if d == 0 then 0 else 1 + d
  }

  /** Length of an exponent, or 0. */
  function ExponentLength(s: string): (n: nat)
    ensures n <= |s|
    ensures n > 0 ==> IsDigit(s[n - 1]) && forall i :: 0 <= i < n ==> IsNumberChar(s[i])
  {
    if s == [] || (s[0] != 'e' && s[0] != 'E') then 0
    else
      var sign := if |s| > 1 && (s[1] == '+' || s[1] == '-') then 2 else 1;
      var d := CountDigits(s[sign..]);
      assert forall i :: sign <= i < sign + d ==> s[i] == s[sign..][i - sign];
      if d == 0 then 0 else sign + d
  }

  /** Section 6: length of the number at the head of `s`, or 0. */
  function NumberLength(s: string): (n: nat)
    ensures n <= |s|
    ensures n > 0 ==> IsDigit(s[n - 1]) && forall i :: 0 <= i < n ==> IsNumberChar(s[i])
    ensures n > 0 ==> IsDigit(s[0]) || s[0] == '-'
  {
    var i := IntLength(s);
    if i == 0 then 0
    else
      var f := FractionLength(s[i..]);
      assert forall j :: i <= j < i + f ==> s[j] == s[i..][j - i];
      var e := ExponentLength(s[i + f..]);
      assert forall j :: i + f <= j < i + f + e ==> s[j] == s[i + f..][j - i - f];
      i + f + e
  }

  function ReadValue(s: string): (r: Read<Json>)
    ensures r.Ok? ==> |r.rest| < |s|
    decreases |s|, 0
  {
    var t := SkipSpace(s);
    if t == [] then Fail
    else if t[0] == '"' then
      var r := ReadString(t[1..]);
      if r.Ok? then Ok(JString(r.value), r.rest) else Fail
    else if t[0] == '{' then
      var u := SkipSpace(t[1..]);
      if u != [] && u[0] == '}' then Ok(JObject([]), u[1..])
      else
        var r := ReadMembers(t[1..]);
        if r.Ok? then Ok(JObject(r.value), r.rest) else Fail
    else if t[0] == '[' then
      var u := SkipSpace(t[1..]);
      if u != [] && u[0] == ']' then Ok(JArray([]), u[1..])
      else
        var r := ReadItems(t[1..]);
        if r.Ok? then Ok(JArray(r.value), r.rest) else Fail
    else if "true" <= t then Ok(JBool(true), t[4..])
    else if "false" <= t then Ok(JBool(false), t[5..])
    else if "null" <= t then Ok(JNull, t[4..])
    else
      var n := NumberLength(t);
      if n > 0 then Ok(JNumber(t[..n]), t[n..]) else Fail
  }

  /** A member name and the colon after it. */
  function ReadKey(s: string): (r: Read<seq<nat>>)
    ensures r.Ok? ==> |r.rest| < |s|
  {
    var t := SkipSpace(s);
    if t == [] || t[0] != '"' then Fail
    else
      var k := ReadString(t[1..]);
      if k.Fail? then Fail
      else
        var c := SkipSpace(k.rest);
        if c != [] && c[0] == ':' then Ok(k.value, c[1..]) else Fail
  }

  /** One or more members and the closing brace. */
  function ReadMembers(s: string): (r: Read<seq<Member>>)
    ensures r.Ok? ==> |r.rest| < |s|
    decreases |s|, 1
  {
    var k := ReadKey(s);
    if k.Fail? then Fail
    else
      var v := ReadValue(k.rest);
      if v.Fail? then Fail
      else
        var e := SkipSpace(v.rest);
        if e == [] then Fail
        else if e[0] == '}' then Ok([Member(k.value, v.value)], e[1..])
        else if e[0] != ',' then Fail
        else
          var more := ReadMembers(e[1..]);
          if more.Ok? then Ok([Member(k.value, v.value)] + more.value, more.rest) else Fail
  }

  /** One or more items and the closing bracket. */
  function ReadItems(s: string): (r: Read<seq<Json>>)
    ensures r.Ok? ==> |r.rest| < |s|
    decreases |s|, 1
  {
    var v := ReadValue(s);
    if v.Fail? then Fail
    else
      var e := SkipSpace(v.rest);
      if e == [] then Fail
      else if e[0] == ']' then Ok([v.value], e[1..])
      else if e[0] != ',' then Fail
      else
        var more := ReadItems(e[1..]);
        if more.Ok? then Ok([v.value] + more.value, more.rest) else Fail
  }

  /** A whole text: one value surrounded by whitespace. */
  function Parse(s: string): Option<Json> {
    var r := ReadValue(s);
    if r.Ok? && SkipSpace(r.rest) == [] then Some(r.value) else None
  }
}
