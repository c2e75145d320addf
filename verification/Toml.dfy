/**
 * TOML values as packages/config/src/provider.ts reads them: each reader takes the
 * value at the front of a text and returns it with the remainder.
 */
module Toml {
  import opened Common
  import opened Whitespace

  datatype Value =
    | Bool(b: bool)
    | Int(n: int)
    | Str(s: string)
    | Arr(items: seq<Value>)
    | Table(entries: seq<Entry>)

  datatype Entry = Entry(key: string, value: Value)

  datatype Failure =
    | MissingValue | BadScalar(token: string) | Unterminated | MalformedArray | MalformedTable
    | EmptyKey | NotATable(key: string)
    | NotModelled  // a float, or a \u escape

  type Parsed<T> = Result<(T, string), Failure>

  predicate StartsWith(s: string, c: char) {
    |s| > 0 && s[0] == c
  }

  // ---- strings ----

  function Unescape(c: char): Option<char> {
    if c == 'n' then Some('\n')
    else if c == 't' then Some('\t')
    else if c == 'r' then Some('\r')
    else if c == '"' then Some('"')
    else if c == '\\' then Some('\\')
    else if c == '0' then Some('\0')
    else None
  }

  function Prepend(out: string, r: Parsed<string>): Parsed<string> {
    match r
    case Ok((text, rest)) => Ok((out + text, rest))
    case Err(e) => Err(e)
  }

  /** Read up to the closing `quote`; a single-quoted string has no escapes. */
  function ReadRest(s: string, quote: char): (r: Parsed<string>)
    ensures r.Ok? ==> |r.value.1| < |s|
  {
    if |s| == 0 then Err(Unterminated)
    else if s[0] == quote then Ok(("", s[1..]))
    else if quote != '\'' && s[0] == '\\' && |s| > 1 && s[1] == 'u' then Err(NotModelled)
    else if quote != '\'' && s[0] == '\\' && |s| > 1 && Unescape(s[1]).Some? then
      Prepend([Unescape(s[1]).value], ReadRest(s[2..], quote))
    else Prepend([s[0]], ReadRest(s[1..], quote))
  }

  // ---- scalars ----

  predicate IsDigit(c: char) {
    '0' <= c <= '9'
  }

  function Without(s: string, c: char): string {
    if |s| == 0 then "" else (if s[0] == c then "" else [s[0]]) + Without(s[1..], c)
  }

  predicate AllDigits(s: string) {
    forall i :: 0 <= i < |s| ==> IsDigit(s[i])
  }

  function DigitValue(s: string): nat
    requires AllDigits(s)
  {
    if |s| == 0 then 0 else DigitValue(s[..|s| - 1]) * 10 + (s[|s| - 1] - '0') as nat
  }

  function Unsigned(s: string): string {
    if StartsWith(s, '+') || StartsWith(s, '-') then s[1..] else s
  }

  function ParseScalar(token: string): Result<Value, Failure> {
    if token == "true" then Ok(Bool(true))
    else if token == "false" then Ok(Bool(false))
    else
      var numeric := Without(token, '_');
      var digits := Unsigned(numeric);
      if |digits| > 0 && AllDigits(digits) then
        Ok(Int(if StartsWith(numeric, '-') then -(DigitValue(digits) as int) else DigitValue(digits)))
      else if '.' in numeric || 'e' in numeric || 'E' in numeric then Err(NotModelled)
      else Err(BadScalar(token))
  }

  predicate IsDelimiter(c: char) {
    c == ',' || c == ']' || c == '}'
  }

  /** Where a scalar ends. */
  function ScalarEnd(s: string): (i: nat)
    ensures i <= |s|
  {
    if |s| == 0 || IsDelimiter(s[0]) then 0 else 1 + ScalarEnd(s[1..])
  }

  // ---- keys ----

  /** The first `stop` outside quotes, or the length. */
  function FindOutside(s: string, stop: char, open: Option<char>): (i: nat)
    ensures i <= |s|
  {
    if |s| == 0 then 0
    else
      match open
      case Some(q) => 1 + FindOutside(s[1..], stop, if s[0] == q then None else open)
      case None =>
        if s[0] == '"' || s[0] == '\'' then 1 + FindOutside(s[1..], stop, Some(s[0]))
        else if s[0] == stop then 0
        else 1 + FindOutside(s[1..], stop, None)
  }

  /** A line up to the first `#` outside quotes. */
  function StripComment(line: string): string {
    line[..FindOutside(line, '#', None)]
  }

  function IndexOf(s: string, c: char): (i: nat)
    ensures i <= |s|
    ensures i < |s| ==> s[i] == c
  {
    if |s| == 0 || s[0] == c then 0 else 1 + IndexOf(s[1..], c)
  }

  function SkipDots(s: string): (r: string)
    ensures |r| <= |s|
  {
    if |s| > 0 && (s[0] == ' ' || s[0] == '.') then SkipDots(s[1..]) else s
  }

  function After(s: string, i: nat): (r: string)
    ensures |s| > 0 ==> |r| < |s|
  {
    if i < |s| then s[i + 1..] else ""
  }

  /** The segments of a dotted key; quoted segments have no escapes. */
  function SplitParts(key: string): Result<seq<string>, Failure>
    decreases |key|
  {
    if |key| == 0 then Ok([])
    else if key[0] == '"' || key[0] == '\'' then
      var j := IndexOf(key[1..], key[0]);
      match SplitParts(SkipDots(After(key[1..], j)))
      case Ok(parts) => Ok([key[1..][..j]] + parts)
      case Err(e) => Err(e)
    else
      var j := IndexOf(key, '.');
      var segment := Trim(key[..j]);
      if segment == "" then Err(EmptyKey)
      else
        match SplitParts(After(key, j))
        case Ok(parts) => Ok([segment] + parts)
        case Err(e) => Err(e)
  }

  function SplitKey(key: string): (r: Result<seq<string>, Failure>)
    ensures r.Ok? ==> |r.value| > 0
  {
    match SplitParts(key)
    case Ok(parts) => if parts == [] then Err(EmptyKey) else Ok(parts)
    case Err(e) => Err(e)
  }

  // ---- tables ----

  function KeyIndex(obj: seq<Entry>, key: string): (i: nat)
    ensures i <= |obj|
    ensures i < |obj| ==> obj[i].key == key
  {
    if |obj| == 0 || obj[0].key == key then 0 else 1 + KeyIndex(obj[1..], key)
  }

  function SetKey(obj: seq<Entry>, key: string, v: Value): seq<Entry> {
    var i := KeyIndex(obj, key);
    if i < |obj| then obj[..i] + [Entry(key, v)] + obj[i + 1..] else obj + [Entry(key, v)]
  }

  /** Set the value at a path, creating the tables on the way. */
  function Assign(obj: seq<Entry>, path: seq<string>, v: Value): Result<seq<Entry>, Failure>
    requires |path| > 0
    decreases |path|
  {
    if |path| == 1 then Ok(SetKey(obj, path[0], v))
    else
      var i := KeyIndex(obj, path[0]);
      if i < |obj| && !obj[i].value.Table? then Err(NotATable(path[0]))
      else
        match Assign(if i < |obj| then obj[i].value.entries else [], path[1..], v)
        case Ok(child) => Ok(SetKey(obj, path[0], Table(child)))
        case Err(e) => Err(e)
  }

  // ---- values ----

  /** One value from the front of `str`.  Every success consumes at least a character. */
  function ParseValue(str: string): (r: Parsed<Value>)
    ensures r.Ok? ==> |r.value.1| < |str|
    decreases |str|, 2
  {
    var s := TrimStart(str);
    if |s| == 0 then Err(MissingValue)
    else if s[0] == '"' || s[0] == '\'' then
      match ReadRest(s[1..], s[0])
      case Ok((text, rest)) => Ok((Str(text), rest))
      case Err(e) => Err(e)
    else if s[0] == '[' then
      match ParseArray(s)
      case Ok((items, rest)) => Ok((Arr(items), rest))
      case Err(e) => Err(e)
    else if s[0] == '{' then
      match ParseTable(s)
      case Ok((entries, rest)) => Ok((Table(entries), rest))
      case Err(e) => Err(e)
    else
      var i := ScalarEnd(s);
      match ParseScalar(Trim(s[..i]))
      case Ok(v) => ScalarNotEmpty(s[..i]); Ok((v, s[i..]))
      case Err(e) => Err(e)
  }

  lemma ScalarNotEmpty(s: string)
    requires ParseScalar(Trim(s)).Ok?
    ensures |s| > 0
  {
  }

  function ParseArray(s: string): (r: Parsed<seq<Value>>)
    requires |s| > 0
    ensures r.Ok? ==> |r.value.1| < |s|
    decreases |s|, 1
  {
    var rest := TrimStart(s[1..]);
    if StartsWith(rest, ']') then Ok(([], rest[1..])) else ParseItems(rest)
  }

  /** The items from the front of `str`, up to the closing bracket. */
  function ParseItems(str: string): (r: Parsed<seq<Value>>)
    ensures r.Ok? ==> |r.value.1| < |str|
    decreases |str|, 3
  {
    match ParseValue(str)
    case Err(e) => Err(e)
    case Ok((v, after)) =>
      var rest := TrimStart(after);
      if StartsWith(rest, ',') then
        var next := TrimStart(rest[1..]);
        if StartsWith(next, ']') then Ok(([v], next[1..]))
        else
          match ParseItems(next)
          case Ok((vs, end)) => Ok(([v] + vs, end))
          case Err(e) => Err(e)
      else if StartsWith(rest, ']') then Ok(([v], rest[1..]))
      else Err(MalformedArray)
  }

  function ParseTable(s: string): (r: Parsed<seq<Entry>>)
    requires |s| > 0
    ensures r.Ok? ==> |r.value.1| < |s|
    decreases |s|, 1
  {
    var rest := TrimStart(s[1..]);
    if StartsWith(rest, '}') then Ok(([], rest[1..])) else ParseEntries(rest, [])
  }

  /** The entries from the front of `str`, added to `obj`, up to the closing brace. */
  function ParseEntries(str: string, obj: seq<Entry>): (r: Parsed<seq<Entry>>)
    ensures r.Ok? ==> |r.value.1| < |str|
    decreases |str|, 3
  {
    var eq := FindOutside(str, '=', None);
    if eq == |str| then Err(MalformedTable)
    else
      match SplitKey(Trim(str[..eq]))
      case Err(e) => Err(e)
      case Ok(path) =>
        match ParseValue(str[eq + 1..])
        case Err(e) => Err(e)
        case Ok((v, after)) =>
          match Assign(obj, path, v)
          case Err(e) => Err(e)
          case Ok(obj') =>
            var rest := TrimStart(after);
            if StartsWith(rest, ',') then ParseEntries(TrimStart(rest[1..]), obj')
            else if StartsWith(rest, '}') then Ok((obj', rest[1..]))
            else Err(MalformedTable)
  }
}
