/**
 * TOML values as written, and the proof that the reader accepts exactly these texts.
 * A `Doc` is a value with its quoting, escapes, keys and white space (TOML v1.0.0,
 * sections "String", "Integer", "Array" and "Inline Table", as far as the reader goes).
 */
module TomlForms {
  import opened Common
  import opened Toml
  import opened TomlKeys
  import opened Whitespace

  /** A character of a string: as it stands, or behind a backslash. */
  datatype Piece = Plain(c: char) | Escaped(c: char)

  /** A value and the white space around it. */
  datatype Item = Item(lead: string, doc: Doc, trail: string)

  /** A dotted key and its value. */
  datatype Pair = Pair(lead: string, keys: seq<Key>, gap: string, item: Item)

  datatype Doc =
    | DBool(b: bool)
    | DInt(written: string)
    | DString(quote: char, pieces: seq<Piece>)
    | DArray(items: seq<Item>, comma: bool, pad: string)  // `comma`: one more at the end; `pad` stands before the bracket
    | DTable(pairs: seq<Pair>, pad: string)               // `pad`: what an empty table holds

  // ---- what is written ----

  function PieceText(p: Piece): string {
    match p
    case Plain(c) => [c]
    case Escaped(c) => ['\\', c]
  }

  function PiecesText(pieces: seq<Piece>): string {
    if |pieces| == 0 then "" else PieceText(pieces[0]) + PiecesText(pieces[1..])
  }

  function Text(doc: Doc): string
    decreases doc, 1
  {
    match doc
    case DBool(b) => if b then "true" else "false"
    case DInt(written) => written
    case DString(quote, pieces) => [quote] + (PiecesText(pieces) + [quote])
    case DArray(items, comma, pad) => "[" + ItemsText(items, comma, pad)
    case DTable(pairs, pad) => "{" + TableBody(pairs, pad)
  }

  function ItemText(item: Item): string
    decreases item, 2
  {
    item.lead + (Text(item.doc) + item.trail)
  }

  function ItemsText(items: seq<Item>, comma: bool, pad: string): string
    decreases items, 3
  {
    if |items| == 0 then pad + "]"
    else ItemText(items[0]) + if |items| == 1 && !comma then "]" else "," + ItemsText(items[1..], comma, pad)
  }

  function PairText(p: Pair): string
    decreases p, 3
  {
    p.lead + (PathText(p.keys) + (p.gap + ("=" + ItemText(p.item))))
  }

  function PairsText(pairs: seq<Pair>): string
    requires |pairs| > 0
    decreases pairs, 4
  {
    PairText(pairs[0]) + if |pairs| == 1 then "}" else "," + PairsText(pairs[1..])
  }

  function TableBody(pairs: seq<Pair>, pad: string): string
    decreases pairs, 5
  {
    if |pairs| == 0 then pad + "}" else PairsText(pairs)
  }

  // ---- what it means ----

  function PieceValue(p: Piece): char {
    match p
    case Plain(c) => c
    case Escaped(c) => if Unescape(c).Some? then Unescape(c).value else c
  }

  function PiecesValue(pieces: seq<Piece>): string {
    if |pieces| == 0 then "" else [PieceValue(pieces[0])] + PiecesValue(pieces[1..])
  }

  /** Digits and any number of underscores, behind at most one sign. */
  predicate IsInteger(written: string) {
    var digits := Unsigned(Without(written, '_'));
    |digits| > 0 && AllDigits(digits)
  }

  function IntegerValue(written: string): int
    requires IsInteger(written)
  {
    var numeric := Without(written, '_');
    if StartsWith(numeric, '-') then -(DigitValue(Unsigned(numeric)) as int) else DigitValue(Unsigned(numeric))
  }

  function Meaning(doc: Doc): Value
    decreases doc, 1
  {
    match doc
    case DBool(b) => Bool(b)
    case DInt(written) => Int(if IsInteger(written) then IntegerValue(written) else 0)
    case DString(_, pieces) => Str(PiecesValue(pieces))
    case DArray(items, _, _) => Arr(Meanings(items))
    case DTable(pairs, _) => Table(match Entries(pairs, []) case Ok(entries) => entries case Err(_) => [])
  }

  function ItemMeaning(item: Item): Value
    decreases item, 2
  {
    Meaning(item.doc)
  }

  function Meanings(items: seq<Item>): seq<Value>
    decreases items, 3
  {
    if |items| == 0 then [] else [ItemMeaning(items[0])] + Meanings(items[1..])
  }

  function PairMeaning(p: Pair): Value
    decreases p, 3
  {
    ItemMeaning(p.item)
  }

  /** The pairs added in order, each along its path. */
  function Entries(pairs: seq<Pair>, obj: seq<Entry>): Result<seq<Entry>, Failure>
    decreases pairs, 4
  {
    if |pairs| == 0 then Ok(obj)
    else if |pairs[0].keys| == 0 then Err(EmptyKey)
    else
      match Assign(obj, Names(pairs[0].keys), PairMeaning(pairs[0]))
      case Ok(obj') => Entries(pairs[1..], obj')
      case Err(e) => Err(e)
  }

  // ---- what may be written ----

  /** A backslash before such a character is not taken as it stands. */
  predicate Escapes(c: char) {
    c == 'u' || Unescape(c).Some?
  }

  predicate GoodPiece(p: Piece, quote: char, next: char) {
    match p
    case Plain(c) => c != quote && (quote == '"' && c == '\\' ==> !Escapes(next))
    case Escaped(c) => quote == '"' && Unescape(c).Some?
  }

  predicate GoodPieces(pieces: seq<Piece>, quote: char) {
    |pieces| > 0 ==> GoodPiece(pieces[0], quote, (PiecesText(pieces[1..]) + [quote])[0]) && GoodPieces(pieces[1..], quote)
  }

  /** No table opens with a key that looks like its closing brace, and no path runs through a non-table. */
  predicate Good(doc: Doc)
    decreases doc, 1
  {
    match doc
    case DBool(_) => true
    case DInt(written) => IsInteger(written)
    case DString(quote, pieces) => IsQuote(quote) && GoodPieces(pieces, quote)
    case DArray(items, _, pad) => AllSpace(pad) && GoodItems(items)
    case DTable(pairs, pad) =>
      && AllSpace(pad) && GoodPairs(pairs) && (|pairs| > 0 ==> !StartsWith(PathText(pairs[0].keys), '}'))
      && Entries(pairs, []).Ok?
  }

  predicate GoodItem(item: Item)
    decreases item, 2
  {
    AllSpace(item.lead) && Good(item.doc) && AllSpace(item.trail)
  }

  predicate GoodItems(items: seq<Item>)
    decreases items, 3
  {
    |items| > 0 ==> GoodItem(items[0]) && GoodItems(items[1..])
  }

  predicate GoodPair(p: Pair)
    decreases p, 3
  {
    AllSpace(p.lead) && GoodPath(p.keys) && AllSpace(p.gap) && GoodItem(p.item)
  }

  predicate GoodPairs(pairs: seq<Pair>)
    decreases pairs, 4
  {
    |pairs| > 0 ==> GoodPair(pairs[0]) && GoodPairs(pairs[1..])
  }

  /** Nothing, or one of `,` `]` `}`. */
  predicate Ends(rest: string) {
    |rest| == 0 || IsDelimiter(rest[0])
  }

  /** The reader of such a value takes the white space behind it too. */
  predicate IsScalar(doc: Doc) {
    doc.DBool? || doc.DInt?
  }

  // ---- scalars ----

  lemma {:induction false} ScalarEndAt(s: string, rest: string)
    requires (forall i :: 0 <= i < |s| ==> !IsDelimiter(s[i])) && Ends(rest)
    ensures ScalarEnd(s + rest) == |s|
  {
    if |s| > 0 {
      assert (s + rest)[1..] == s[1..] + rest;
      ScalarEndAt(s[1..], rest);
    } else {
      assert s + rest == rest;
    }
  }

  lemma {:induction false} EndsThere(s: string)
    ensures Ends(s[ScalarEnd(s)..])
  {
    if |s| > 0 && !IsDelimiter(s[0]) {
      EndsThere(s[1..]);
      assert s[ScalarEnd(s)..] == s[1..][ScalarEnd(s[1..])..];
    }
  }

  lemma {:induction false} WithoutKeeps(s: string, x: char, c: char)
    requires c in s && c != x
    ensures c in Without(s, x)
  {
    if s[0] != c { WithoutKeeps(s[1..], x, c); }
  }

  predicate NumberChar(c: char) {
    c == '_' || c == '+' || c == '-' || IsDigit(c)
  }

  lemma NumberChars(c: char)
    requires NumberChar(c)
    ensures !IsSpace(c) && !IsDelimiter(c) && !IsQuote(c) && c != '[' && c != '{' && c != 't' && c != 'f'
  {
  }

  /** A scalar that starts no other value, ends in no space and holds no delimiter. */
  predicate PlainScalar(t: string) {
    && Trimmed(t) && !IsQuote(t[0]) && t[0] != '[' && t[0] != '{'
    && forall i :: 0 <= i < |t| ==> !IsDelimiter(t[i])
  }

  lemma IntegerIsPlain(w: string)
    requires IsInteger(w)
    ensures PlainScalar(w) && w != "true" && w != "false"
  {
    var numeric := Without(w, '_');
    assert forall c :: c in numeric ==> NumberChar(c);
    forall i | 0 <= i < |w| ensures NumberChar(w[i]) {
      if w[i] != '_' { WithoutKeeps(w, '_', w[i]); }
    }
    assert w != "";
    hide *;
    forall i | 0 <= i < |w| ensures !IsDelimiter(w[i]) { NumberChars(w[i]); }
    NumberChars(w[0]);
    NumberChars(w[|w| - 1]);
    PlainIs(w);
  }

  lemma PlainIs(t: string)
    ensures PlainScalar(t) <==>
              && |t| > 0 && !IsSpace(t[0]) && !IsSpace(t[|t| - 1]) && !IsQuote(t[0]) && t[0] != '[' && t[0] != '{'
              && forall i :: 0 <= i < |t| ==> !IsDelimiter(t[i])
  {
  }

  lemma ScalarText(doc: Doc)
    requires IsScalar(doc) && Good(doc)
    ensures PlainScalar(Text(doc)) && ParseScalar(Text(doc)) == Ok(Meaning(doc))
  {
    if doc.DInt? {
      IntegerIsPlain(doc.written);
      hide PlainScalar, Without, AllDigits;
    }
  }

  lemma ScalarFrom(token: string) returns (doc: Doc)
    requires ParseScalar(token).Ok?
    ensures IsScalar(doc) && Good(doc) && Text(doc) == token && ParseScalar(token) == Ok(Meaning(doc))
  {
    hide Without, AllDigits, DigitValue;
    doc := if token == "true" then DBool(true) else if token == "false" then DBool(false) else DInt(token);
  }

  lemma ScalarRead(t: string, pad: string, rest: string)
    requires PlainScalar(t) && AllSpace(pad) && Ends(rest) && ParseScalar(t).Ok?
    ensures ParseValue(t + (pad + rest)) == Ok((ParseScalar(t).value, rest))
  {
    var raw, s := t + pad, t + (pad + rest);
    hide *;
    PlainIs(t);
    PadIsPlain(t, pad);
    ScalarEndAt(raw, rest);
    RawTrimmed(t, pad);
    assert s == raw + rest && s[0] == t[0];
    AtStart(s);
    ScalarTurn(s);
    assert s[..|raw|] == raw && s[|raw|..] == rest;
  }

  lemma PadIsPlain(t: string, pad: string)
    requires AllSpace(pad) && forall i :: 0 <= i < |t| ==> !IsDelimiter(t[i])
    ensures forall i :: 0 <= i < |t + pad| ==> !IsDelimiter((t + pad)[i])
  {
    forall i | 0 <= i < |t + pad| ensures !IsDelimiter((t + pad)[i]) {
      assert (t + pad)[i] == if i < |t| then t[i] else pad[i - |t|];
      assert i >= |t| ==> IsSpace(pad[i - |t|]);
    }
  }

  lemma RawTrimmed(t: string, pad: string)
    requires AllSpace(pad) && |t| > 0 && !IsSpace(t[0]) && !IsSpace(t[|t| - 1])
    ensures Trim(t + pad) == t
  {
    TrimPadded("", t, pad);
    assert "" + (t + pad) == t + pad;
  }

  lemma AtStart(s: string)
    requires |s| > 0 && !IsSpace(s[0])
    ensures TrimStart(s) == s
  {
  }

  /** The reader at a scalar. */
  lemma ScalarTurn(s: string)
    requires TrimStart(s) == s && |s| > 0 && !IsQuote(s[0]) && s[0] != '[' && s[0] != '{'
    ensures var i := ScalarEnd(s); var v := ParseScalar(Trim(s[..i]));
            ParseValue(s) == if v.Ok? then Ok((v.value, s[i..])) else Err(v.error)
  {
    hide ScalarEnd, ParseScalar, Trim, IsSpace, TrimStart;
  }

  // ---- strings ----

  lemma {:induction false} PiecesRead(pieces: seq<Piece>, quote: char, rest: string)
    requires IsQuote(quote) && GoodPieces(pieces, quote)
    ensures ReadRest(PiecesText(pieces) + ([quote] + rest), quote) == Ok((PiecesValue(pieces), rest))
  {
    hide *;
    if |pieces| == 0 {
      NoPieces(quote, rest);
    } else {
      var p, more := pieces[0], pieces[1..];
      PiecesStep(pieces, quote);
      PiecesRead(more, quote, rest);
      var tail := PiecesText(more) + ([quote] + rest);
      SameNext(PiecesText(more), quote, rest);
      PieceRead(p, quote, tail);
      assert (PieceText(p) + PiecesText(more)) + ([quote] + rest) == PieceText(p) + tail;
      Prepended(PieceValue(p), PiecesValue(more), rest);
    }
  }

  lemma NoPieces(quote: char, rest: string)
    ensures ReadRest(PiecesText([]) + ([quote] + rest), quote) == Ok((PiecesValue([]), rest))
  {
    assert "" + ([quote] + rest) == [quote] + rest && ([quote] + rest)[1..] == rest;
  }

  lemma SameNext(text: string, quote: char, rest: string)
    ensures (text + ([quote] + rest))[0] == (text + [quote])[0]
  {
  }

  lemma PiecesStep(pieces: seq<Piece>, quote: char)
    requires |pieces| > 0
    ensures PiecesText(pieces) == PieceText(pieces[0]) + PiecesText(pieces[1..])
    ensures PiecesValue(pieces) == [PieceValue(pieces[0])] + PiecesValue(pieces[1..])
    ensures GoodPieces(pieces, quote) <==>
              GoodPiece(pieces[0], quote, (PiecesText(pieces[1..]) + [quote])[0]) && GoodPieces(pieces[1..], quote)
  {
    hide GoodPiece, PieceText, PieceValue;
  }

  lemma Prepended(c: char, text: string, rest: string)
    ensures Prepend([c], Ok((text, rest))) == Ok(([c] + text, rest))
  {
  }

  lemma PieceRead(p: Piece, quote: char, tail: string)
    requires IsQuote(quote) && |tail| > 0 && GoodPiece(p, quote, tail[0])
    ensures ReadRest(PieceText(p) + tail, quote) == Prepend([PieceValue(p)], ReadRest(tail, quote))
  {
    var s := PieceText(p) + tail;
    if p.Plain? {
      assert s[1..] == tail && s[0] == p.c && s[1] == tail[0];
    } else {
      assert s[2..] == tail && s[0] == '\\' && s[1] == p.c;
    }
  }

  /** A string that is read, taken apart. */
  lemma {:induction false} PiecesFrom(s: string, quote: char) returns (pieces: seq<Piece>)
    requires IsQuote(quote) && ReadRest(s, quote).Ok?
    ensures GoodPieces(pieces, quote) && s == PiecesText(pieces) + ([quote] + ReadRest(s, quote).value.1)
    ensures ReadRest(s, quote).value.0 == PiecesValue(pieces)
    decreases |s|
  {
    if s[0] == quote {
      pieces := [];
      assert s == "" + ([quote] + s[1..]);
    } else {
      var p, tail := PieceFrom(s, quote);
      var more := PiecesFrom(tail, quote);
      pieces := [p] + more;
      assert pieces[1..] == more;
      var rest := ReadRest(s, quote).value.1;
      hide ReadRest, PieceText, GoodPiece;
      assert tail[0] == (PiecesText(more) + [quote])[0];
      assert s == (PieceText(p) + PiecesText(more)) + ([quote] + rest);
    }
  }

  lemma PieceFrom(s: string, quote: char) returns (p: Piece, tail: string)
    requires IsQuote(quote) && ReadRest(s, quote).Ok? && s[0] != quote
    ensures s == PieceText(p) + tail && |tail| > 0 && |tail| < |s| && GoodPiece(p, quote, tail[0])
    ensures ReadRest(tail, quote).Ok?
    ensures ReadRest(s, quote) == Prepend([PieceValue(p)], ReadRest(tail, quote))
  {
    if quote == '"' && s[0] == '\\' && |s| > 1 && Unescape(s[1]).Some? {
      p, tail := Escaped(s[1]), s[2..];
    } else {
      p, tail := Plain(s[0]), s[1..];
    }
    assert s == PieceText(p) + tail;
  }

  // ---- one turn of each reader ----

  lemma SameValue(a: string, b: string)
    requires TrimStart(a) == TrimStart(b)
    ensures ParseValue(a) == ParseValue(b)
  {
  }

  lemma TrimTwice(s: string)
    ensures TrimStart(TrimStart(s)) == TrimStart(s)
  {
  }

  lemma SameItems(s: string)
    ensures ParseItems(TrimStart(s)) == ParseItems(s)
  {
    TrimTwice(s);
    SameValue(TrimStart(s), s);
    hide ParseValue, TrimStart;
  }

  lemma StringTurn(s: string)
    requires |s| > 0 && IsQuote(s[0]) && TrimStart(s) == s
    ensures var r := ReadRest(s[1..], s[0]);
            ParseValue(s) == if r.Ok? then Ok((Str(r.value.0), r.value.1)) else Err(r.error)
  {
    hide ReadRest, TrimStart;
  }

  lemma ArrayTurn(s: string)
    requires |s| > 0 && s[0] == '[' && TrimStart(s) == s
    ensures var rest := TrimStart(s[1..]); var r := ParseItems(rest);
            ParseValue(s) ==
              if StartsWith(rest, ']') then Ok((Arr([]), rest[1..]))
              else if r.Ok? then Ok((Arr(r.value.0), r.value.1))
              else Err(r.error)
  {
    hide ParseItems, TrimStart;
  }

  lemma TableTurn(s: string)
    requires |s| > 0 && s[0] == '{' && TrimStart(s) == s
    ensures var rest := TrimStart(s[1..]); var r := ParseEntries(rest, []);
            ParseValue(s) ==
              if StartsWith(rest, '}') then Ok((Table([]), rest[1..]))
              else if r.Ok? then Ok((Table(r.value.0), r.value.1))
              else Err(r.error)
  {
    hide ParseEntries, TrimStart;
  }

  /** What the array reader does after an item `v`, with `rest` behind it. */
  function AfterItem(v: Value, rest: string): Parsed<seq<Value>> {
    if StartsWith(rest, ',') then
      var next := TrimStart(rest[1..]);
      if StartsWith(next, ']') then Ok(([v], next[1..]))
      else
        match ParseItems(next)
        case Ok((vs, end)) => Ok(([v] + vs, end))
        case Err(e) => Err(e)
    else if StartsWith(rest, ']') then Ok(([v], rest[1..]))
    else Err(MalformedArray)
  }

  lemma ItemsTurn(str: string)
    ensures var r := ParseValue(str);
            ParseItems(str) == if r.Ok? then AfterItem(r.value.0, TrimStart(r.value.1)) else Err(r.error)
  {
    hide ParseValue, TrimStart;
  }

  /** What the table reader does after a pair, with `rest` behind it. */
  function AfterPair(obj: seq<Entry>, rest: string): Parsed<seq<Entry>> {
    if StartsWith(rest, ',') then ParseEntries(TrimStart(rest[1..]), obj)
    else if StartsWith(rest, '}') then Ok((obj, rest[1..]))
    else Err(MalformedTable)
  }

  lemma PairsTurn(str: string, obj: seq<Entry>)
    ensures var eq := FindOutside(str, '=', None);
            if eq == |str| then ParseEntries(str, obj) == Err(MalformedTable)
            else
              var names := SplitKey(Trim(str[..eq]));
              if names.Err? then ParseEntries(str, obj) == Err(names.error)
              else
                var r := ParseValue(str[eq + 1..]);
                if r.Err? then ParseEntries(str, obj) == Err(r.error)
                else
                  var added := Assign(obj, names.value, r.value.0);
                  ParseEntries(str, obj) ==
                    if added.Err? then Err(added.error) else AfterPair(added.value, TrimStart(r.value.1))
  {
    hide FindOutside, SplitKey, Trim, ParseValue, TrimStart, Assign;
  }

  // ---- every written value is read ----

  /** The text of a value starts with no space, and with neither closing bracket. */
  lemma TextStarts(doc: Doc)
    requires Good(doc)
    ensures |Text(doc)| > 0 && !IsSpace(Text(doc)[0]) && Text(doc)[0] != ']' && Text(doc)[0] != '}'
  {
    if IsScalar(doc) { ScalarStarts(doc); }
  }

  lemma ScalarStarts(doc: Doc)
    requires Good(doc) && IsScalar(doc)
    ensures |Text(doc)| > 0 && !IsSpace(Text(doc)[0]) && Text(doc)[0] != ']' && Text(doc)[0] != '}'
  {
    hide *;
    ScalarText(doc);
    PlainIs(Text(doc));
    assert IsDelimiter(']') && IsDelimiter('}') by { Delimiters(); }
  }

  lemma Delimiters()
    ensures IsDelimiter(',') && IsDelimiter(']') && IsDelimiter('}') && !IsSpace(',') && !IsSpace(']') && !IsSpace('}')
    ensures !IsSpace('[') && !IsSpace('{') && !IsSpace('=') && !IsSpace('"') && !IsSpace('\'')
  {
  }

  /**
   * A written value, white space and a remainder read back as the value; what is left is the
   * remainder, with the white space before it unless a scalar's reader took it.
   */
  lemma {:induction false} ReadBack(doc: Doc, pad: string, rest: string)
    requires Good(doc) && AllSpace(pad) && (IsScalar(doc) ==> Ends(rest))
    ensures ParseValue(Text(doc) + (pad + rest)) == Ok((Meaning(doc), if IsScalar(doc) then rest else pad + rest))
    decreases doc, 1
  {
    match doc {
      case DString(quote, pieces) => StringReadBack(quote, pieces, pad + rest);
      case DArray(items, comma, p) => ArrayReadBack(items, comma, p, pad + rest);
      case DTable(pairs, p) => TableReadBack(pairs, p, pad + rest);
      case _ =>
        hide *;
        ScalarText(doc);
        ScalarRead(Text(doc), pad, rest);
    }
  }

  lemma StringReadBack(quote: char, pieces: seq<Piece>, rest: string)
    requires IsQuote(quote) && GoodPieces(pieces, quote)
    ensures ParseValue(Text(DString(quote, pieces)) + rest) == Ok((Str(PiecesValue(pieces)), rest))
  {
    hide *;
    var t := [quote] + (PiecesText(pieces) + ([quote] + rest));
    StringTextIs(quote, pieces, rest);
    AtStart(t);
    assert t[1..] == PiecesText(pieces) + ([quote] + rest);
    PiecesRead(pieces, quote, rest);
    StringTurn(t);
  }

  lemma StringTextIs(quote: char, pieces: seq<Piece>, rest: string)
    requires IsQuote(quote)
    ensures Text(DString(quote, pieces)) + rest == [quote] + (PiecesText(pieces) + ([quote] + rest)) && !IsSpace(quote)
  {
  }

  /** A bracket, then the body. */
  lemma OpensWith(c: char, body: string)
    requires !IsSpace(c)
    ensures var t := [c] + body; t[0] == c && TrimStart(t) == t && t[1..] == body
  {
  }

  lemma SkipTo(pad: string, c: char, rest: string)
    requires AllSpace(pad) && IsDelimiter(c)
    ensures var t := TrimStart(pad + ([c] + rest));
            t == [c] + rest && t == TrimStart([c] + rest) && t[0] == c && t[1..] == rest
  {
    TrimPad(pad, [c] + rest);
    Delimiters();
  }

  lemma {:induction false} ArrayReadBack(items: seq<Item>, comma: bool, pad: string, rest: string)
    requires AllSpace(pad) && GoodItems(items)
    ensures ParseValue(Text(DArray(items, comma, pad)) + rest) == Ok((Arr(Meanings(items)), rest))
    decreases items, 4
  {
    var body := ItemsText(items, comma, pad) + rest;
    var t := ['['] + body;
    hide *;
    ArrayTextIs(items, comma, pad, rest);
    Delimiters();
    OpensWith('[', body);
    ArrayTurn(t);
    if |items| == 0 {
      NoItems(comma, pad, rest);
    } else {
      ItemsOpen(items, comma, pad, rest);
      ItemsReadBack(items, comma, pad, rest);
      SameItems(body);
    }
  }

  lemma ArrayTextIs(items: seq<Item>, comma: bool, pad: string, rest: string)
    ensures Text(DArray(items, comma, pad)) + rest == ['['] + (ItemsText(items, comma, pad) + rest)
  {
    hide ItemsText;
  }

  lemma NoItems(comma: bool, pad: string, rest: string)
    requires AllSpace(pad)
    ensures var t := TrimStart(ItemsText([], comma, pad) + rest);
            StartsWith(t, ']') && t[1..] == rest && Meanings([]) == []
  {
    hide TrimStart, AllSpace;
    SkipTo(pad, ']', rest);
    assert (pad + "]") + rest == pad + ([']'] + rest);
  }

  /** The text of items is the first, then `next`: a comma and the others, or the closing bracket. */
  function NextItems(items: seq<Item>, comma: bool, pad: string, rest: string): string
    requires |items| > 0
  {
    if |items| == 1 && !comma then [']'] + rest else [','] + (ItemsText(items[1..], comma, pad) + rest)
  }

  lemma ItemsShape(items: seq<Item>, comma: bool, pad: string, rest: string)
    requires |items| > 0
    ensures ItemsText(items, comma, pad) + rest == ItemText(items[0]) + NextItems(items, comma, pad, rest)
    ensures Meanings(items) == [ItemMeaning(items[0])] + Meanings(items[1..])
    ensures GoodItems(items) <==> GoodItem(items[0]) && GoodItems(items[1..])
  {
    hide ItemText, ItemMeaning, GoodItem;
  }

  /** Past the white space an item starts with its value. */
  lemma ItemStarts(item: Item, next: string)
    requires GoodItem(item)
    ensures TrimStart(ItemText(item) + next) == Text(item.doc) + (item.trail + next)
  {
    var t := Text(item.doc) + (item.trail + next);
    assert ItemText(item) + next == item.lead + t;
    TextStarts(item.doc);
    hide Text, IsSpace, Good;
    TrimPad(item.lead, t);
    AtStart(t);
  }

  lemma ItemsOpen(items: seq<Item>, comma: bool, pad: string, rest: string)
    requires |items| > 0 && GoodItems(items)
    ensures !StartsWith(TrimStart(ItemsText(items, comma, pad) + rest), ']')
  {
    ItemsShape(items, comma, pad, rest);
    hide *;
    ItemStarts(items[0], NextItems(items, comma, pad, rest));
    assert Good(items[0].doc) by { GoodItemIs(items[0]); }
    TextStarts(items[0].doc);
    StartsOtherwise(Text(items[0].doc), items[0].trail + NextItems(items, comma, pad, rest), ']');
  }

  lemma StartsOtherwise(t: string, more: string, c: char)
    requires |t| > 0
    ensures StartsWith(t + more, c) <==> t[0] == c
  {
  }

  lemma GoodItemIs(item: Item)
    ensures GoodItem(item) <==> AllSpace(item.lead) && Good(item.doc) && AllSpace(item.trail)
    ensures ItemText(item) == item.lead + (Text(item.doc) + item.trail) && ItemMeaning(item) == Meaning(item.doc)
  {
    hide Good, Text, AllSpace, Meaning;
  }

  lemma {:induction false} ItemReadBack(item: Item, c: char, rest: string)
    requires GoodItem(item) && IsDelimiter(c)
    ensures var r := ParseValue(ItemText(item) + ([c] + rest));
            r.Ok? && r.value.0 == ItemMeaning(item) && TrimStart(r.value.1) == [c] + rest
    decreases item, 2
  {
    var next := [c] + rest;
    var t := Text(item.doc) + (item.trail + next);
    GoodItemIs(item);
    assert Ends(next);
    hide *;
    ReadBack(item.doc, item.trail, next);
    ItemStarts(item, next);
    TrimTwice(ItemText(item) + next);
    SameValue(ItemText(item) + next, t);
    SkipTo(item.trail, c, rest);
  }

  lemma {:induction false} ItemsReadBack(items: seq<Item>, comma: bool, pad: string, rest: string)
    requires |items| > 0 && AllSpace(pad) && GoodItems(items)
    ensures ParseItems(ItemsText(items, comma, pad) + rest) == Ok((Meanings(items), rest))
    decreases items, 3
  {
    var next := NextItems(items, comma, pad, rest);
    var end := |items| == 1 && !comma;
    var behind := if end then rest else ItemsText(items[1..], comma, pad) + rest;
    assert next == [if end then ']' else ','] + behind;
    hide *;
    ItemsShape(items, comma, pad, rest);
    Delimiters();
    ItemReadBack(items[0], if end then ']' else ',', behind);
    ItemsTurn(ItemsText(items, comma, pad) + rest);
    if |items| > 1 {
      ItemsReadBack(items[1..], comma, pad, rest);
      ItemsOpen(items[1..], comma, pad, rest);
      SameItems(behind);
    } else {
      NoItems(comma, pad, rest);
      assert items[1..] == [] && [ItemMeaning(items[0])] + [] == [ItemMeaning(items[0])];
    }
    AfterItemIs(ItemMeaning(items[0]), end, behind);
  }

  lemma AfterItemIs(v: Value, end: bool, behind: string)
    ensures AfterItem(v, [if end then ']' else ','] + behind) ==
              if end then Ok(([v], behind))
              else if StartsWith(TrimStart(behind), ']') then Ok(([v], TrimStart(behind)[1..]))
              else
                match ParseItems(TrimStart(behind))
                case Ok((vs, rest)) => Ok(([v] + vs, rest))
                case Err(e) => Err(e)
  {
    var t := [if end then ']' else ','] + behind;
    assert t[1..] == behind;
    hide TrimStart, ParseItems;
  }

  function Left(r: Result<seq<Entry>, Failure>, rest: string): Parsed<seq<Entry>> {
    match r
    case Ok(entries) => Ok((entries, rest))
    case Err(e) => Err(e)
  }

  lemma {:induction false} TableReadBack(pairs: seq<Pair>, pad: string, rest: string)
    requires Good(DTable(pairs, pad))
    ensures ParseValue(Text(DTable(pairs, pad)) + rest) == Ok((Meaning(DTable(pairs, pad)), rest))
    decreases pairs, 5
  {
    var body := TableBody(pairs, pad) + rest;
    var t := ['{'] + body;
    TableIs(pairs, pad);
    hide *;
    TableTextIs(pairs, pad, rest);
    Delimiters();
    OpensWith('{', body);
    TableTurn(t);
    if |pairs| == 0 {
      NoPairs(pad, rest);
    } else {
      PairsOpen(pairs, rest);
      PairsReadBack(pairs, rest, []);
      LeftIs(Entries(pairs, []), rest);
    }
  }

  lemma LeftIs(r: Result<seq<Entry>, Failure>, rest: string)
    requires r.Ok?
    ensures Left(r, rest) == Ok((r.value, rest))
  {
  }

  lemma TableIs(pairs: seq<Pair>, pad: string)
    ensures Entries(pairs, []).Ok? ==> Meaning(DTable(pairs, pad)) == Table(Entries(pairs, []).value)
    ensures Good(DTable(pairs, pad)) <==>
              && AllSpace(pad) && GoodPairs(pairs) && (|pairs| > 0 ==> !StartsWith(PathText(pairs[0].keys), '}'))
              && Entries(pairs, []).Ok?
    ensures pairs == [] ==> Entries(pairs, []) == Ok([])
  {
    hide GoodPairs, AllSpace, PathText, Assign, PairMeaning;
  }

  lemma TableTextIs(pairs: seq<Pair>, pad: string, rest: string)
    ensures Text(DTable(pairs, pad)) + rest == ['{'] + (TableBody(pairs, pad) + rest)
    ensures |pairs| > 0 ==> TableBody(pairs, pad) == PairsText(pairs)
    ensures pairs == [] ==> TableBody(pairs, pad) == pad + "}"
  {
    hide PairsText;
    assert pairs == [] ==> TableBody(pairs, pad) == pad + "}";
    hide TableBody;
  }

  lemma NoPairs(pad: string, rest: string)
    requires AllSpace(pad)
    ensures var t := TrimStart(TableBody([], pad) + rest); StartsWith(t, '}') && t[1..] == rest
  {
    hide TrimStart, AllSpace;
    SkipTo(pad, '}', rest);
    assert (pad + "}") + rest == pad + (['}'] + rest);
  }

  /** The text of pairs is the first, then `next`: a comma and the others, or the closing brace. */
  function NextPairs(pairs: seq<Pair>, rest: string): string
    requires |pairs| > 0
  {
    if |pairs| == 1 then ['}'] + rest else [','] + (PairsText(pairs[1..]) + rest)
  }

  lemma PairsShape(pairs: seq<Pair>, rest: string)
    requires |pairs| > 0
    ensures PairsText(pairs) + rest == PairText(pairs[0]) + NextPairs(pairs, rest)
    ensures GoodPairs(pairs) <==> GoodPair(pairs[0]) && GoodPairs(pairs[1..])
  {
    hide PairText, GoodPair;
  }

  lemma PairIs(p: Pair, next: string)
    ensures GoodPair(p) <==> AllSpace(p.lead) && GoodPath(p.keys) && AllSpace(p.gap) && GoodItem(p.item)
    ensures PairMeaning(p) == ItemMeaning(p.item)
    ensures PairText(p) + next == p.lead + ((PathText(p.keys) + p.gap) + ("=" + (ItemText(p.item) + next)))
  {
    hide AllSpace, GoodPath, GoodItem, PathText, ItemText, ItemMeaning;
    Regroup(p.lead, PathText(p.keys), p.gap, ItemText(p.item), next);
  }

  lemma Regroup(lead: string, key: string, gap: string, value: string, next: string)
    ensures (lead + (key + (gap + ("=" + value)))) + next == lead + ((key + gap) + ("=" + (value + next)))
  {
    assert ("=" + value) + next == "=" + (value + next);
    assert (gap + ("=" + value)) + next == gap + ("=" + (value + next));
    assert (key + (gap + ("=" + value))) + next == (key + gap) + ("=" + (value + next));
  }

  lemma PathStarts(keys: seq<Key>)
    requires GoodPath(keys)
    ensures |keys| > 0 && Trimmed(PathText(keys))
  {
  }

  /** Past the white space a pair starts with its key. */
  lemma PairStarts(p: Pair, next: string)
    requires GoodPair(p)
    ensures var t := (PathText(p.keys) + p.gap) + ("=" + (ItemText(p.item) + next));
            TrimStart(PairText(p) + next) == t && |t| > 0 && |PathText(p.keys)| > 0 && t[0] == PathText(p.keys)[0]
  {
    var t := (PathText(p.keys) + p.gap) + ("=" + (ItemText(p.item) + next));
    PairIs(p, next);
    hide *;
    PathStarts(p.keys);
    TrimmedStarts(PathText(p.keys));
    TrimPad(p.lead, t);
    AtStart(t);
  }

  lemma TrimmedStarts(t: string)
    requires Trimmed(t)
    ensures |t| > 0 && !IsSpace(t[0])
  {
  }

  lemma PairsOpen(pairs: seq<Pair>, rest: string)
    requires |pairs| > 0 && GoodPairs(pairs) && !StartsWith(PathText(pairs[0].keys), '}')
    ensures !StartsWith(TrimStart(PairsText(pairs) + rest), '}')
  {
    hide *;
    PairsShape(pairs, rest);
    PairStarts(pairs[0], NextPairs(pairs, rest));
    StartsAlike(PathText(pairs[0].keys), TrimStart(PairsText(pairs) + rest), '}');
  }

  lemma StartsAlike(a: string, b: string, c: char)
    requires |a| > 0 && |b| > 0 && a[0] == b[0]
    ensures StartsWith(a, c) <==> StartsWith(b, c)
  {
  }

  lemma {:induction false} PairsReadBack(pairs: seq<Pair>, rest: string, obj: seq<Entry>)
    requires |pairs| > 0 && GoodPairs(pairs)
    ensures ParseEntries(TrimStart(PairsText(pairs) + rest), obj) == Left(Entries(pairs, obj), rest)
    decreases pairs, 4
  {
    var end := |pairs| == 1;
    var behind := if end then rest else PairsText(pairs[1..]) + rest;
    assert NextPairs(pairs, rest) == [if end then '}' else ','] + behind;
    hide *;
    PairsShape(pairs, rest);
    PairReadBack(pairs[0], end, behind, obj);
    PairIs(pairs[0], "");
    PathStarts(pairs[0].keys);
    EntriesStep(pairs, obj, rest);
    var added := Assign(obj, Names(pairs[0].keys), PairMeaning(pairs[0]));
    if !end && added.Ok? {
      PairsReadBack(pairs[1..], rest, added.value);
    }
  }

  lemma EntriesStep(pairs: seq<Pair>, obj: seq<Entry>, rest: string)
    requires |pairs| > 0 && |pairs[0].keys| > 0
    ensures var added := Assign(obj, Names(pairs[0].keys), PairMeaning(pairs[0]));
            Left(Entries(pairs, obj), rest) ==
              if added.Err? then Err(added.error)
              else if |pairs| > 1 then Left(Entries(pairs[1..], added.value), rest)
              else Ok((added.value, rest))
  {
    hide Assign, PairMeaning;
  }

  /** One key and value, up to the comma or brace that follows. */
  lemma {:induction false} PairReadBack(p: Pair, end: bool, behind: string, obj: seq<Entry>)
    requires GoodPair(p)
    ensures |p.keys| > 0
    ensures var added := Assign(obj, Names(p.keys), PairMeaning(p));
            ParseEntries(TrimStart(PairText(p) + ([if end then '}' else ','] + behind)), obj) ==
              if added.Err? then Err(added.error)
              else if end then Ok((added.value, behind))
              else ParseEntries(TrimStart(behind), added.value)
    decreases p, 3
  {
    var c := if end then '}' else ',';
    var next := [c] + behind;
    hide *;
    Delimiters();
    PairIs(p, next);
    PathStarts(p.keys);
    PairStarts(p, next);
    KeyRead(p.keys, p.gap, ItemText(p.item) + next);
    ItemReadBack(p.item, c, behind);
    PairsTurn(TrimStart(PairText(p) + next), obj);
    var added := Assign(obj, Names(p.keys), PairMeaning(p));
    if added.Ok? { AfterPairIs(added.value, end, behind); }
  }

  lemma AfterPairIs(obj: seq<Entry>, end: bool, behind: string)
    ensures AfterPair(obj, [if end then '}' else ','] + behind) ==
              if end then Ok((obj, behind)) else ParseEntries(TrimStart(behind), obj)
  {
    var t := [if end then '}' else ','] + behind;
    assert t[1..] == behind;
    hide TrimStart, ParseEntries;
  }

  // ---- every value that is read was so written ----

  /** `t` is `item` as written, of value `v`, and then `rest`; only a scalar takes the white space behind it. */
  predicate Reads(item: Item, t: string, v: Value, rest: string) {
    && GoodItem(item) && ItemMeaning(item) == v && t == ItemText(item) + rest
    && if IsScalar(item.doc) then Ends(rest) else item.trail == ""
  }

  lemma ReadsIs(lead: string, doc: Doc, trail: string, t: string, rest: string)
    requires AllSpace(lead) && Good(doc) && AllSpace(trail) && (if IsScalar(doc) then Ends(rest) else trail == "")
    requires t == lead + (Text(doc) + (trail + rest))
    ensures Reads(Item(lead, doc, trail), t, Meaning(doc), rest)
  {
    GoodItemIs(Item(lead, doc, trail));
    hide Good, Text, Meaning, GoodItem, ItemText, ItemMeaning;
    assert (lead + (Text(doc) + trail)) + rest == lead + (Text(doc) + (trail + rest));
  }

  lemma {:induction false} ItemFrom(str: string) returns (item: Item)
    requires ParseValue(str).Ok?
    ensures Reads(item, str, ParseValue(str).value.0, ParseValue(str).value.1)
    decreases |str|, 2
  {
    var s := TrimStart(str);
    hide *;
    ReadsSomething(str);
    var lead := TrimStartSplits(str);
    TrimTwice(str);
    SameValue(str, s);
    var r := ParseValue(s).value;
    if s[0] == '[' {
      var items, comma, pad := ArrayFrom(s);
      DocIs(lead, DArray(items, comma, pad), str, s, r.1);
      item := Item(lead, DArray(items, comma, pad), "");
    } else if s[0] == '{' {
      var pairs, pad := TableFrom(s);
      DocIs(lead, DTable(pairs, pad), str, s, r.1);
      item := Item(lead, DTable(pairs, pad), "");
    } else if s[0] == '"' || s[0] == '\'' {
      var doc := StringFrom(s);
      DocIs(lead, doc, str, s, r.1);
      item := Item(lead, doc, "");
    } else {
      var doc, trail := ScalarTokenFrom(s);
      ReadsIs(lead, doc, trail, str, r.1);
      item := Item(lead, doc, trail);
    }
  }

  /** A value is read only where the text does not end. */
  lemma ReadsSomething(str: string)
    requires ParseValue(str).Ok?
    ensures |TrimStart(str)| > 0 && |TrimStart(str)| <= |str|
  {
    hide ReadRest, ParseArray, ParseTable, ScalarEnd, ParseScalar;
  }

  lemma DocIs(lead: string, doc: Doc, str: string, s: string, rest: string)
    requires AllSpace(lead) && Good(doc) && !IsScalar(doc) && str == lead + s && s == Text(doc) + rest
    ensures Reads(Item(lead, doc, ""), str, Meaning(doc), rest)
  {
    hide Good, Text, Meaning, Reads;
    assert "" + rest == rest && AllSpace("");
    ReadsIs(lead, doc, "", str, rest);
  }

  lemma StringFrom(s: string) returns (doc: Doc)
    requires |s| > 0 && (s[0] == '"' || s[0] == '\'') && TrimStart(s) == s && ParseValue(s).Ok?
    ensures Good(doc) && !IsScalar(doc) && ParseValue(s).value.0 == Meaning(doc)
    ensures s == Text(doc) + ParseValue(s).value.1
  {
    var quote := s[0];
    assert IsQuote(quote);
    StringTurn(s);
    hide ParseValue, ReadRest;
    var rest := ParseValue(s).value.1;
    var pieces := PiecesFrom(s[1..], quote);
    doc := DString(quote, pieces);
    hide *;
    StringTextIs(quote, pieces, rest);
    assert s == [quote] + s[1..];
    StringIs(quote, pieces);
  }

  lemma StringIs(quote: char, pieces: seq<Piece>)
    requires IsQuote(quote) && GoodPieces(pieces, quote)
    ensures var doc := DString(quote, pieces);
            Good(doc) && !IsScalar(doc) && Meaning(doc) == Str(PiecesValue(pieces))
  {
  }

  lemma ScalarTokenFrom(s: string) returns (doc: Doc, trail: string)
    requires |s| > 0 && TrimStart(s) == s && ParseValue(s).Ok?
    requires s[0] != '"' && s[0] != '\'' && s[0] != '[' && s[0] != '{'
    ensures IsScalar(doc) && Good(doc) && AllSpace(trail) && Ends(ParseValue(s).value.1)
    ensures ParseValue(s).value.0 == Meaning(doc)
    ensures s == Text(doc) + (trail + ParseValue(s).value.1)
  {
    assert !IsQuote(s[0]);
    hide *;
    ScalarTurn(s);
    var i := ScalarEnd(s);
    EndsThere(s);
    NotEmpty(s, i);
    StartsNonSpace(s);
    var token := Trim(s[..i]);
    trail := TrailFrom(s[..i]);
    doc := ScalarFrom(token);
    SplitText(s, i, token, trail);
  }

  lemma TrailFrom(raw: string) returns (trail: string)
    requires |raw| > 0 && !IsSpace(raw[0])
    ensures raw == Trim(raw) + trail && AllSpace(trail)
  {
    hide *;
    var lead: string;
    lead, trail := TrimSplits(raw);
    assert "" + (Trim(raw) + trail) == Trim(raw) + trail;
  }

  lemma SplitText(s: string, i: nat, token: string, trail: string)
    requires i <= |s| && s[..i] == token + trail
    ensures s == token + (trail + s[i..])
  {
  }

  lemma NotEmpty(s: string, i: nat)
    requires |s| > 0 && i <= |s| && ParseScalar(Trim(s[..i])).Ok?
    ensures i > 0 && s[..i] != "" && s[..i][0] == s[0]
  {
    NoScalar();
    assert s[..0] == "";
    hide ParseScalar, Trim;
  }

  lemma NoScalar()
    ensures Trim("") == "" && ParseScalar("").Err?
  {
    assert Without("", '_') == "" && Unsigned("") == "";
  }

  lemma StartsNonSpace(s: string)
    requires TrimStart(s) == s && |s| > 0
    ensures !IsSpace(s[0])
  {
  }

  lemma {:induction false} ArrayFrom(s: string) returns (items: seq<Item>, comma: bool, pad: string)
    requires |s| > 0 && s[0] == '[' && TrimStart(s) == s && ParseValue(s).Ok?
    ensures var doc := DArray(items, comma, pad);
            Good(doc) && !IsScalar(doc) && ParseValue(s) == Ok((Meaning(doc), ParseValue(s).value.1))
            && s == Text(doc) + ParseValue(s).value.1
    decreases |s|, 1
  {
    var body := s[1..];
    hide *;
    ArrayTurn(s);
    assert s == ['['] + body;
    if StartsWith(TrimStart(body), ']') {
      items, comma := [], false;
      pad := PadFrom(body, ']');
      ArrayIs(items, comma, pad, ParseValue(s).value.1);
      NoItemsText(comma, pad, TrimStart(body)[1..]);
    } else {
      SameItems(body);
      items, comma, pad := ItemsFrom(body);
      ArrayIs(items, comma, pad, ParseValue(s).value.1);
    }
  }

  lemma PadFrom(body: string, c: char) returns (pad: string)
    requires StartsWith(TrimStart(body), c)
    ensures AllSpace(pad) && body == pad + ([c] + TrimStart(body)[1..])
  {
    hide TrimStart, AllSpace;
    pad := TrimStartSplits(body);
    assert TrimStart(body) == [c] + TrimStart(body)[1..];
  }

  lemma NoItemsText(comma: bool, pad: string, rest: string)
    ensures ItemsText([], comma, pad) + rest == pad + ([']'] + rest) && GoodItems([]) && Meanings([]) == []
  {
  }

  lemma ArrayIs(items: seq<Item>, comma: bool, pad: string, rest: string)
    ensures var doc := DArray(items, comma, pad);
            && (Good(doc) <==> AllSpace(pad) && GoodItems(items)) && !IsScalar(doc) && Meaning(doc) == Arr(Meanings(items))
            && Text(doc) + rest == ['['] + (ItemsText(items, comma, pad) + rest)
  {
    ArrayTextIs(items, comma, pad, rest);
    hide ItemsText, GoodItems, Meanings, Text;
  }

  /** An item with the white space behind it. */
  lemma ItemGrows(item: Item, str: string, v: Value, after: string) returns (wider: Item)
    requires Reads(item, str, v, after)
    ensures GoodItem(wider) && ItemMeaning(wider) == v && str == ItemText(wider) + TrimStart(after)
  {
    hide *;
    var space := TrimStartSplits(after);
    wider := Item(item.lead, item.doc, item.trail + space);
    Widened(item, space, str, v, after, TrimStart(after));
  }

  lemma Widened(item: Item, space: string, str: string, v: Value, after: string, rest: string)
    requires Reads(item, str, v, after) && AllSpace(space) && after == space + rest
    ensures var wider := Item(item.lead, item.doc, item.trail + space);
            GoodItem(wider) && ItemMeaning(wider) == v && str == ItemText(wider) + rest
  {
    var wider := Item(item.lead, item.doc, item.trail + space);
    GoodItemIs(item);
    GoodItemIs(wider);
    hide GoodItem, Good, ItemText, Text, ItemMeaning;
    assert AllSpace(item.trail + space);
    assert (item.lead + (Text(item.doc) + item.trail)) + (space + rest) ==
      (item.lead + (Text(item.doc) + (item.trail + space))) + rest;
  }

  lemma {:induction false} ItemsFrom(str: string) returns (items: seq<Item>, comma: bool, pad: string)
    requires ParseItems(str).Ok?
    ensures |items| > 0 && GoodItems(items) && AllSpace(pad) && Meanings(items) == ParseItems(str).value.0
    ensures str == ItemsText(items, comma, pad) + ParseItems(str).value.1
    decreases |str|, 3
  {
    var r := ParseValue(str);
    hide *;
    ItemsTurn(str);
    var narrow := ItemFrom(str);
    var item := ItemGrows(narrow, str, r.value.0, r.value.1);
    var rest := TrimStart(r.value.1);
    AfterItemCases(r.value.0, rest);
    var end, body, more := ParseItems(str).value.1, "", [];
    comma, pad := StartsWith(rest, ','), "";
    NothingMore();
    if comma {
      body := rest[1..];
      if StartsWith(TrimStart(body), ']') {
        pad := PadFrom(body, ']');
        NoItemsText(comma, pad, end);
      } else {
        SameItems(body);
        more, comma, pad := ItemsFrom(body);
      }
    }
    items := [item] + more;
    ItemsJoin(item, more, comma, pad, str, rest, body, end);
  }

  lemma NothingMore()
    ensures GoodItems([]) && Meanings([]) == [] && AllSpace("")
  {
  }

  lemma AfterItemCases(v: Value, rest: string)
    requires AfterItem(v, rest).Ok?
    ensures var r := AfterItem(v, rest).value;
            if StartsWith(rest, ',') then
              var next := TrimStart(rest[1..]);
              && rest == [','] + rest[1..]
              && if StartsWith(next, ']') then r == ([v], next[1..])
                 else ParseItems(next).Ok? && r == ([v] + ParseItems(next).value.0, ParseItems(next).value.1)
            else rest == [']'] + r.1 && r.0 == [v]
  {
    hide TrimStart, ParseItems;
  }

  lemma ItemsJoin(
      item: Item, more: seq<Item>, comma: bool, pad: string, str: string, rest: string, body: string, end: string)
    requires GoodItem(item) && GoodItems(more) && str == ItemText(item) + rest
    requires if more == [] && !comma then rest == [']'] + end
             else rest == [','] + body && body == ItemsText(more, comma, pad) + end
    ensures var items := [item] + more;
            && GoodItems(items) && Meanings(items) == [ItemMeaning(item)] + Meanings(more)
            && str == ItemsText(items, comma, pad) + end
  {
    var items := [item] + more;
    assert items[0] == item && items[1..] == more;
    hide *;
    ItemsShape(items, comma, pad, end);
    NextItemsIs(items, comma, pad, end);
  }

  lemma NextItemsIs(items: seq<Item>, comma: bool, pad: string, rest: string)
    requires |items| > 0
    ensures NextItems(items, comma, pad, rest) ==
              if |items| == 1 && !comma then [']'] + rest else [','] + (ItemsText(items[1..], comma, pad) + rest)
  {
  }

  lemma {:induction false} TableFrom(s: string) returns (pairs: seq<Pair>, pad: string)
    requires |s| > 0 && s[0] == '{' && TrimStart(s) == s && ParseValue(s).Ok?
    ensures var doc := DTable(pairs, pad);
            Good(doc) && !IsScalar(doc) && ParseValue(s) == Ok((Meaning(doc), ParseValue(s).value.1))
            && s == Text(doc) + ParseValue(s).value.1
    decreases |s|, 1
  {
    var body := s[1..];
    hide *;
    TableTurn(s);
    assert s == ['{'] + body;
    if StartsWith(TrimStart(body), '}') {
      pairs := [];
      pad := PadFrom(body, '}');
      NothingPaired(pad, TrimStart(body)[1..]);
    } else {
      pairs := PairsFrom(body, []);
      pad := "";
      NothingMore();
    }
    TableIs(pairs, pad);
    TableTextIs(pairs, pad, ParseValue(s).value.1);
    NotScalar(DTable(pairs, pad));
  }

  lemma NotScalar(doc: Doc)
    ensures doc.DTable? ==> !IsScalar(doc)
  {
  }

  lemma NothingPaired(pad: string, rest: string)
    ensures TableBody([], pad) + rest == pad + (['}'] + rest) && GoodPairs([]) && Entries([], []) == Ok([])
  {
  }

  lemma {:induction false} PairsFrom(str: string, obj: seq<Entry>) returns (pairs: seq<Pair>)
    requires ParseEntries(TrimStart(str), obj).Ok?
    ensures |pairs| > 0 && GoodPairs(pairs)
    ensures Entries(pairs, obj) == Ok(ParseEntries(TrimStart(str), obj).value.0)
    ensures str == PairsText(pairs) + ParseEntries(TrimStart(str), obj).value.1
    ensures StartsWith(PathText(pairs[0].keys), '}') ==> StartsWith(TrimStart(str), '}')
    decreases |str|, 3
  {
    var s := TrimStart(str);
    hide *;
    var lead := TrimStartSplits(str);
    PairsTurn(s, obj);
    var eq := FindOutside(s, '=', None);
    StartsNonSpaceOrEnds(str);
    var none, keys, gap := KeyIsPath(s);
    var names, r := SplitKey(Trim(s[..eq])).value, ParseValue(s[eq + 1..]).value;
    var narrow := ItemFrom(s[eq + 1..]);
    var item := ItemGrows(narrow, s[eq + 1..], r.0, r.1);
    var p := Pair(lead, keys, gap, item);
    var rest := TrimStart(r.1);
    PairJoin(p, str, s, eq, rest);
    var added := Assign(obj, names, r.0).value;
    AfterPairCases(added, rest);
    var end, body, more := ParseEntries(s, obj).value.1, "", [];
    if StartsWith(rest, ',') {
      body := rest[1..];
      more := PairsFrom(body, added);
    }
    pairs := [p] + more;
    NothingAdded(added);
    PairsJoin(p, more, str, rest, body, end);
    PathStarts(keys);
    PairIs(p, "");
    EntriesJoin(p, more, obj, added);
  }

  lemma StartsNonSpaceOrEnds(str: string)
    ensures var s := TrimStart(str); |s| > 0 ==> !IsSpace(s[0])
  {
  }

  lemma NothingAdded(obj: seq<Entry>)
    ensures GoodPairs([]) && Entries([], obj) == Ok(obj)
  {
  }

  lemma AfterPairCases(obj: seq<Entry>, rest: string)
    requires AfterPair(obj, rest).Ok?
    ensures if StartsWith(rest, ',') then
              rest == [','] + rest[1..] && AfterPair(obj, rest) == ParseEntries(TrimStart(rest[1..]), obj)
            else rest == ['}'] + AfterPair(obj, rest).value.1 && AfterPair(obj, rest).value.0 == obj
  {
    hide TrimStart, ParseEntries;
  }

  /** A pair put together from its parts. */
  lemma PairJoin(p: Pair, str: string, s: string, eq: nat, rest: string)
    requires AllSpace(p.lead) && GoodPath(p.keys) && AllSpace(p.gap) && GoodItem(p.item) && eq < |s| && s[eq] == '='
    requires str == p.lead + s && s[..eq] == "" + (PathText(p.keys) + p.gap) && s[eq + 1..] == ItemText(p.item) + rest
    ensures GoodPair(p) && str == PairText(p) + rest
    ensures StartsWith(PathText(p.keys), '}') ==> StartsWith(s, '}')
  {
    hide *;
    PairIs(p, rest);
    assert s == s[..eq] + ("=" + s[eq + 1..]);
    assert "" + (PathText(p.keys) + p.gap) == PathText(p.keys) + p.gap;
    PathStarts(p.keys);
    TrimmedStarts(PathText(p.keys));
    StartsAlike(PathText(p.keys), s, '}');
  }

  lemma PairsJoin(p: Pair, more: seq<Pair>, str: string, rest: string, body: string, end: string)
    requires GoodPair(p) && GoodPairs(more) && str == PairText(p) + rest
    requires if more == [] then rest == ['}'] + end else rest == [','] + body && body == PairsText(more) + end
    ensures GoodPairs([p] + more) && str == PairsText([p] + more) + end
  {
    var pairs := [p] + more;
    assert pairs[0] == p && pairs[1..] == more;
    hide *;
    PairsShape(pairs, end);
    NextPairsIs(pairs, end);
  }

  lemma NextPairsIs(pairs: seq<Pair>, rest: string)
    requires |pairs| > 0
    ensures NextPairs(pairs, rest) == if |pairs| == 1 then ['}'] + rest else [','] + (PairsText(pairs[1..]) + rest)
  {
  }

  lemma EntriesJoin(p: Pair, more: seq<Pair>, obj: seq<Entry>, added: seq<Entry>)
    requires |p.keys| > 0 && Assign(obj, Names(p.keys), PairMeaning(p)) == Ok(added)
    ensures Entries([p] + more, obj) == Entries(more, added)
  {
    assert ([p] + more)[1..] == more;
    hide Assign, PairMeaning;
  }

  /**
   * The value reader accepts exactly the texts that are some value as written: it returns `v`
   * and leaves `rest` if and only if the text is a way of writing `v`, and then `rest`.
   */
  lemma ReadIff(t: string, v: Value, rest: string)
    ensures ParseValue(t) == Ok((v, rest)) <==> exists item :: Reads(item, t, v, rest)
  {
    hide *;
    if ParseValue(t) == Ok((v, rest)) { var item := ItemFrom(t); }
    if item :| Reads(item, t, v, rest) { WrittenIsRead(item, t, v, rest); }
  }

  lemma WrittenIsRead(item: Item, t: string, v: Value, rest: string)
    requires Reads(item, t, v, rest)
    ensures ParseValue(t) == Ok((v, rest))
  {
    GoodItemIs(item);
    assert item.trail == "" ==> item.trail + rest == rest;
    hide Good, GoodItem, Text, ItemText, Meaning, ItemMeaning, IsSpace, IsDelimiter, ParseValue, TrimStart, AllSpace;
    ReadBack(item.doc, item.trail, rest);
    ItemStarts(item, rest);
    TrimTwice(t);
    SameValue(t, Text(item.doc) + (item.trail + rest));
  }
}
