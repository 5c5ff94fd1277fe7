/** Values shared by every part of the model: optional values, request
    fields that may be left out, query-string parameters, HTTP replies and
    the handful of string operations the JavaScript code relies on. */
module Common {

  /** A value that may be null (or undefined, where the two are handled alike). */
  datatype Option<T> = None | Some(value: T)

  /** A JSON request field: `Absent` is a key left out of the body (`undefined`),
      `Present(v)` a key that was sent, even with a null value. */
  datatype Field<T> = Absent | Present(value: T)

  /** A parsed query-string value: missing, given once, or given several times
      (Express then hands the handler an array instead of a string). */
  datatype Param = Missing | Single(text: string) | Repeated(items: seq<string>)

  /** The reply a handler sends: a status code with its JSON body, a status
      code with the `error` string of the body, or the `errors` list of a
      request that failed validation. */
  datatype Response<T> = Ok(status: nat, value: T) | Err(status: nat, message: string) | Invalid(errors: seq<string>)
  {
    /** The HTTP status code sent: a failed validation is always a 400. */
    function Code(): nat {
      match this
      case Ok(s, _) => s
      case Err(s, _) => s
      case Invalid(_) => 400
    }
  }

  /** One validator check: its message when it fails. */
  function Check(ok: bool, message: string): (errs: seq<string>)
    ensures |errs| == if ok then 0 else 1
    ensures !ok ==> errs[0] == message
  {
    if ok then [] else [message]
  }

  /** JavaScript truthiness of an optional string: `null`, `undefined` and `""`
      are falsy. */
  predicate Given(o: Option<string>) {
    o.Some? && o.value != ""
  }

  /** `x || null` on an optional string. */
  function OrNull(o: Option<string>): (r: Option<string>)
    ensures r.Some? <==> Given(o)
    ensures r.Some? ==> r == o
  {
    if Given(o) then o else None
  }

  /** A JSON value of a request body. Numbers are kept exactly, as the
      decimal the body carries. */
  datatype Json = JNull | JBool(b: bool) | JNumber(n: real) | JString(s: string)
                | JArray(items: seq<Json>) | JObject(members: seq<(string, Json)>)

  /** JavaScript truthiness of a JSON value: `null`, `false`, `0` and `""`
      are falsy; every array and object, even an empty one, is truthy. */
  predicate Truthy(j: Json) {
    match j
    case JNull => false
    case JBool(b) => b
    case JNumber(n) => n != 0.0
    case JString(s) => s != ""
    case JArray(_) => true
    case JObject(_) => true
  }

  /** `x || null` on a request field: a field left out is `undefined`, which is falsy. */
  function JsonOrNull(f: Field<Json>): (r: Option<Json>)
    ensures r.Some? <==> f.Present? && Truthy(f.value)
    ensures r.Some? ==> r.value == f.value
  {
    if f.Present? && Truthy(f.value) then Some(f.value) else None
  }

  /** A request field as a string check sees it: a missing field is the empty string. */
  function Text(o: Option<string>): string {
    if o.Some? then o.value else ""
  }

  /** A field sent in an update body replaces the column; one left out keeps it. */
  function Assign<T>(current: T, f: Field<T>): T {
    if f.Present? then f.value else current
  }

  /** ASCII part of the JavaScript regular-expression class `\w`. */
  predicate IsWordChar(c: char) {
    ('a' <= c <= 'z') || ('A' <= c <= 'Z') || ('0' <= c <= '9') || c == '_'
  }

  /** ASCII part of the JavaScript regular-expression class `\s`. */
  predicate IsSpace(c: char) {
    c == ' ' || c == '\t' || c == '\n' || c == '\r' || c == '\U{000B}' || c == '\U{000C}'
  }

  /** `toLowerCase` restricted to ASCII letters. */
  function LowerChar(c: char): (r: char)
    ensures 'A' <= c <= 'Z' ==> 'a' <= r <= 'z'
    ensures !('A' <= c <= 'Z') ==> r == c
  {
    if 'A' <= c <= 'Z' then (c as int - 'A' as int + 'a' as int) as char else c
  }

  function ToLower(s: string): (r: string)
    ensures |r| == |s|
    ensures forall i :: 0 <= i < |s| ==> r[i] == LowerChar(s[i])
  {
    seq(|s|, i requires 0 <= i < |s| => LowerChar(s[i]))
  }

  /** `q` occurs in `s` as a contiguous substring. */
  predicate Contains(s: string, q: string) {
    exists i :: 0 <= i && i + |q| <= |s| && OccursAt(s, q, i)
  }

  predicate OccursAt(s: string, q: string, i: nat)
    requires i + |q| <= |s|
  {
    s[i..i + |q|] == q
  }

  /** The store's `contains … mode: 'insensitive'` filter, with case folding
      restricted to ASCII. */
  predicate ContainsInsensitive(s: string, q: string) {
    Contains(ToLower(s), ToLower(q))
  }

  /** `ContainsInsensitive` on a nullable column: a null column never matches. */
  predicate ColumnMatches(col: Option<string>, q: string) {
    col.Some? && ContainsInsensitive(col.value, q)
  }

  function TrimStart(s: string): (r: string)
    ensures |r| <= |s| && r == s[|s| - |r|..]
    ensures r == [] || !IsSpace(r[0])
    ensures forall i :: 0 <= i < |s| - |r| ==> IsSpace(s[i])
  {
    if s != [] && IsSpace(s[0]) then TrimStart(s[1..]) else s
  }

  function TrimEnd(s: string): (r: string)
    ensures |r| <= |s| && r == s[..|r|]
    ensures r == [] || !IsSpace(r[|r| - 1])
    ensures forall i :: |r| <= i < |s| ==> IsSpace(s[i])
  {
    if s != [] && IsSpace(s[|s| - 1]) then TrimEnd(s[..|s| - 1]) else s
  }

  /** `String.prototype.trim`, and the validator's `trim()` sanitizer, on ASCII
      white space. */
  function Trim(s: string): string {
    TrimEnd(TrimStart(s))
  }

  /** A string trims to the empty string exactly when every character is white space. */
  lemma TrimEmptyIffBlank(s: string)
    ensures Trim(s) == [] <==> forall i :: 0 <= i < |s| ==> IsSpace(s[i])
  {
    var t := TrimStart(s);
    if Trim(s) == [] {
      assert t == [];
    } else {
      assert !IsSpace(Trim(s)[0]);
      assert Trim(s)[0] == t[0] == s[|s| - |t|];
    }
  }

  function DigitChar(d: nat): char
    requires d < 10
  {
    ('0' as int + d) as char
  }

  /** Decimal rendering of a natural number, as string interpolation does it. */
  function NatToString(n: nat): (r: string)
    ensures |r| >= 1
    ensures forall i :: 0 <= i < |r| ==> '0' <= r[i] <= '9'
    decreases n
  {
    if n < 10 then [DigitChar(n)] else NatToString(n / 10) + [DigitChar(n % 10)]
  }

  /** The UTF-16 code units of one character: two for a character outside
      the Basic Multilingual Plane, which JavaScript stores as a surrogate pair. */
  function Utf16Units(c: char): nat {
    if c as int >= 0x1_0000 then 2 else 1
  }

  /** JavaScript's `length` of a string: its UTF-16 code units. */
  function Utf16Length(s: string): (n: nat)
    ensures |s| <= n <= 2 * |s|
  {
    if s == [] then 0 else Utf16Units(s[0]) + Utf16Length(s[1..])
  }

  /** A string of characters inside the Basic Multilingual Plane has one
      UTF-16 code unit per character. */
  lemma {:induction false} Utf16LengthBmp(s: string)
    requires forall i :: 0 <= i < |s| ==> s[i] as int < 0x1_0000
    ensures Utf16Length(s) == |s|
  {
    if s != [] {
      Utf16LengthBmp(s[1..]);
    }
  }

  /** `substring(0, n)`: the longest prefix whose UTF-16 length is at most `n`.
      A surrogate pair that the cut would split is left out whole. */
  function Utf16Prefix(s: string, n: nat): (r: string)
    ensures |r| <= |s| && r == s[..|r|]
    ensures Utf16Length(r) <= n
    ensures |r| < |s| ==> Utf16Length(s[..|r| + 1]) > n
    decreases |s|
  {
    if s == [] || Utf16Units(s[0]) > n then
      assert s != [] ==> s[..1][1..] == [];
      []
    else
      var rest := Utf16Prefix(s[1..], n - Utf16Units(s[0]));
      var r := [s[0]] + rest;
      assert r[1..] == rest;
      assert r == s[..|r|];
      assert |r| < |s| ==> s[..|r| + 1][1..] == s[1..][..|rest| + 1];
      r
  }

  /** Inside the Basic Multilingual Plane the cut is by characters. */
  lemma {:induction false} Utf16PrefixBmp(s: string, n: nat)
    requires forall i :: 0 <= i < |s| ==> s[i] as int < 0x1_0000
    ensures Utf16Prefix(s, n) == s[..Min(n, |s|)]
  {
    var r := Utf16Prefix(s, n);
    assert forall i :: 0 <= i < |r| ==> r[i] == s[i];
    Utf16LengthBmp(r);
    if |r| < |s| {
      Utf16LengthBmp(s[..|r| + 1]);
    }
  }

  /** U+FE0E and U+FE0F, the text and emoji presentation selectors. */
  predicate IsPresentationSelector(c: char) {
    c == '\U{FE0E}' || c == '\U{FE0F}'
  }

  /** The length the validator's `isLength` compares: JavaScript's `length`
      less one per surrogate pair and one per presentation selector, that is,
      the characters of the string other than presentation selectors. */
  function ValidatorLength(s: string): (n: nat)
    ensures n <= |s|
    ensures n == |s| <==> forall k :: 0 <= k < |s| ==> !IsPresentationSelector(s[k])
    decreases |s|
  {
    if s == [] then 0
    else
      var n := (if IsPresentationSelector(s[0]) then 0 else 1) + ValidatorLength(s[1..]);
      assert forall k :: 0 < k < |s| ==> s[k] == s[1..][k - 1];
      n
  }

  /** The count is additive over concatenation. */
  lemma {:induction false} ValidatorLengthConcat(a: string, b: string)
    ensures ValidatorLength(a + b) == ValidatorLength(a) + ValidatorLength(b)
    decreases |a|
  {
    if a == [] {
      assert a + b == b;
    } else {
      assert (a + b)[0] == a[0] && (a + b)[1..] == a[1..] + b;
      ValidatorLengthConcat(a[1..], b);
    }
  }

  /** A string of presentation selectors only has length zero. */
  lemma {:induction false} SelectorsHaveNoLength(s: string)
    requires forall k :: 0 <= k < |s| ==> IsPresentationSelector(s[k])
    ensures ValidatorLength(s) == 0
    decreases |s|
  {
    if s != [] {
      assert forall k :: 0 <= k < |s[1..]| ==> s[1..][k] == s[k + 1];
      SelectorsHaveNoLength(s[1..]);
    }
  }

  /** A presentation selector adds nothing to the length; any other character adds one. */
  lemma ValidatorLengthAppend(s: string, c: char)
    ensures ValidatorLength(s + [c]) == ValidatorLength(s) + if IsPresentationSelector(c) then 0 else 1
  {
    ValidatorLengthConcat(s, [c]);
  }

  /** The UTF-8 bytes of one character. */
  function Utf8Units(c: char): nat {
    if c as int < 0x80 then 1 else if c as int < 0x800 then 2 else if c as int < 0x1_0000 then 3 else 4
  }

  /** The length of a string encoded as UTF-8. */
  function Utf8Length(s: string): (n: nat)
    ensures |s| <= n <= 4 * |s|
  {
    if s == [] then 0 else Utf8Units(s[0]) + Utf8Length(s[1..])
  }

  /** `lastIndexOf` of one character: the position of its last occurrence,
      or none when it does not occur. */
  function LastIndexOf(s: string, c: char): (r: Option<nat>)
    ensures r.Some? ==> r.value < |s| && s[r.value] == c && forall k :: r.value < k < |s| ==> s[k] != c
    ensures r.None? ==> forall k :: 0 <= k < |s| ==> s[k] != c
  {
    if s == [] then None
    else if s[|s| - 1] == c then Some(|s| - 1)
    else LastIndexOf(s[..|s| - 1], c)
  }

  /** `Array.prototype.join`. */
  function Join(parts: seq<string>, sep: string): string
  {
    if parts == [] then ""
    else if |parts| == 1 then parts[0]
    else parts[0] + sep + Join(parts[1..], sep)
  }

  /** The `limit` query parameter of a paged query after `parseInt`; it defaults to 50. */
  const DefaultLimit: nat := 50

  function LimitOf(limit: Option<nat>): nat {
    if limit.Some? then limit.value else DefaultLimit
  }

  function Min(a: int, b: int): int {
    if a <= b then a else b
  }
}
