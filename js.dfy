/** JavaScript value semantics that the handlers and validators rely on:
    absent request fields, truthiness tests and `String.prototype.trim`. */
module Js {

  /** A request field: `None` when the key is absent from the body or query
      (`undefined`, which node-postgres sends to the database as NULL). */
  datatype Option<+T> = None | Some(value: T)

  /** `!!v` for a text field: present and not the empty string. */
  predicate TruthyText(o: Option<string>) {
    o.Some? && o.value != ""
  }

  /** A body value that `isInt()` accepted, as the handler receives it (the
      rule checks but does not convert): integer text such as `"0"`, or a JSON
      number. The database gets the integer either denotes. */
  datatype IntValue = IntText(n: int) | IntNumber(n: int)

  /** `!!v` for such a value: text is never empty once it passed `isInt()`, so
      it is always truthy, even `"0"`; a number is truthy unless it is 0. */
  predicate TruthyInt(o: Option<IntValue>) {
    o.Some? && (o.value.IntText? || o.value.n != 0)
  }

  /** The query parameter node-postgres sends for the value: NULL when absent. */
  function SqlInt(o: Option<IntValue>): (r: Option<int>)
    ensures r.Some? <==> o.Some?
    ensures r.Some? ==> r.value == o.value.n
  {
    if o.Some? then Some(o.value.n) else None
  }

  /** `v || fallback` for a text field. */
  function TextOr(o: Option<string>, fallback: string): (r: string)
    ensures TruthyText(o) ==> r == o.value
    ensures !TruthyText(o) ==> r == fallback
  {
    if TruthyText(o) then o.value else fallback
  }

  /** `v || null` for a text field. */
  function TextOrNull(o: Option<string>): (r: Option<string>)
    ensures r.Some? <==> TruthyText(o)
    ensures r.Some? ==> r == o
  {
    if TruthyText(o) then o else None
  }

  /** `v || null` for such a value: the number 0 becomes NULL, the text `"0"` stays 0. */
  function IntOrNull(o: Option<IntValue>): (r: Option<int>)
    ensures r.Some? <==> TruthyInt(o)
    ensures r.Some? ==> r.value == o.value.n
  {
    if TruthyInt(o) then Some(o.value.n) else None
  }

  /** The code points `trim()` removes: ECMAScript WhiteSpace (tab, vertical tab,
      form feed, the byte order mark and every space separator) and LineTerminator. */
  predicate IsWhitespace(c: char) {
    c == '\t' || c == '\n' || c == '\U{B}' || c == '\U{C}' || c == '\r' || c == ' '
    || c == '\U{A0}' || c == '\U{1680}' || ('\U{2000}' <= c <= '\U{200A}')
    || c == '\U{2028}' || c == '\U{2029}' || c == '\U{202F}' || c == '\U{205F}'
    || c == '\U{3000}' || c == '\U{FEFF}'
  }

  /** Drops the leading whitespace: the result is the longest suffix of `s` that
      does not start with whitespace. */
  function TrimStart(s: string): (r: string)
    ensures |r| <= |s| && r == s[|s| - |r|..]
    ensures forall i :: 0 <= i < |s| - |r| ==> IsWhitespace(s[i])
    ensures r != [] ==> !IsWhitespace(r[0])
    decreases |s|
  {
    if s != [] && IsWhitespace(s[0]) then TrimStart(s[1..]) else s
  }

  /** Drops the trailing whitespace: the result is the longest prefix of `s` that
      does not end with whitespace. */
  function TrimEnd(s: string): (r: string)
    ensures |r| <= |s| && r == s[..|r|]
    ensures forall i :: |r| <= i < |s| ==> IsWhitespace(s[i])
    ensures r != [] ==> !IsWhitespace(r[|r| - 1])
    decreases |s|
  {
    if s != [] && IsWhitespace(s[|s| - 1]) then TrimEnd(s[..|s| - 1]) else s
  }

  /** Text made of whitespace only, the text whose `trim()` is `''`. */
  predicate WhitespaceOnly(s: string) {
    forall i :: 0 <= i < |s| ==> IsWhitespace(s[i])
  }

  /** `s.trim()`, and the express-validator `trim()` sanitizer, whose default
      character class `\s` is the same set. Exactly whitespace-only text trims
      to `''`; any other text keeps a non-whitespace character at both ends. */
  function Trim(s: string): (r: string)
    ensures |r| <= |s|
    ensures r == "" <==> WhitespaceOnly(s)
    ensures r != "" ==> !IsWhitespace(r[0]) && !IsWhitespace(r[|r| - 1])
  {
    TrimEnd(TrimStart(s))
  }

  /** The trimmed text neither starts nor ends with whitespace, so trimming it again changes nothing. */
  lemma TrimIdempotent(s: string)
    ensures Trim(Trim(s)) == Trim(s)
  {
    var t := Trim(s);
    if t != [] {
      var u := TrimStart(s);
      assert t[0] == u[0];
      assert TrimStart(t) == t;
    }
  }
}
