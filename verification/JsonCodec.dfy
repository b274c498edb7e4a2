/** Reading and writing JSON values: the printer, the tokenizer and the parser, and when they undo each other. */
module JsonCodec {
  import opened JsonValues
  import opened JsonText

  // ---------------------------------------------------------------- strings

  /** A string with quotes and backslashes escaped. */
  function Escaped(s: CString): (r: CString)
    ensures |r| >= |s|
  {
    if s == "" then ""
    else (if s[0] == '"' || s[0] == '\\' then ['\\'] else []) + [s[0]] + Escaped(s[1..])
  }

  function Quoted(s: CString): CString {
    "\"" + Escaped(s) + "\""
  }

  /** What a backslash and `c` at index `i` of a token of length `n` stand for. */
  function Unescaped(c: char, i: nat, n: nat): (x: CString)
    requires c != '\0'
    ensures |x| <= 1
  {
    if c == 'b' then [0x08 as char]
    else if c == 'f' then [0x0c as char]
    else if c == 'n' then "\n"
    else if c == 'r' then "\r"
    else if c == 't' then "\t"
    else if c == 'u' && i + 4 < n then ""
    else [c]
  }

  /** The string a quoted token stands for, from its `i`-th character on. */
  function Dequoted(tok: CString, i: nat): CString
    requires |tok| >= 2
    decreases |tok| - i
  {
    if i >= |tok| - 1 then ""
    else if tok[i] != '\\' then [tok[i]] + Dequoted(tok, i + 1)
    else Unescaped(tok[i + 1], i + 1, |tok|) + Dequoted(tok, i + 2)
  }

  /** Where the string token whose body starts at `j` stops: at its closing quote, or past the end. */
  function QuoteEnd(z: CString, j: nat): (e: nat)
    ensures j <= e && (e < |z| ==> z[e] == '"')
    decreases |z| - j
  {
    if j >= |z| || z[j] == '"' then j
    else if z[j] == '\\' then QuoteEnd(z, j + 2)
    else QuoteEnd(z, j + 1)
  }

  /** The scan of an escaped string stops at the quote that closes it. */
  lemma {:induction false} EscapedScanned(z: CString, j: nat, s: CString)
    requires TextAt(z, j, Escaped(s) + "\"")
    ensures QuoteEnd(z, j) == j + |Escaped(s)|
    decreases |s|
  {
    var text := Escaped(s) + "\"";
    CharAt(z, j, text, 0);
    if s != "" {
      var k := if s[0] == '"' || s[0] == '\\' then 2 else 1;
      CharAt(z, j, text, k - 1);
      assert text == text[..k] + (Escaped(s[1..]) + "\"");
      TextParts(z, j, text[..k], Escaped(s[1..]) + "\"");
      EscapedScanned(z, j + k, s[1..]);
    }
  }

  lemma {:induction false} DequoteFrom(tok: CString, i: nat, s: CString)
    requires |tok| >= 2 && i <= |tok| && tok[i..] == Escaped(s) + "\""
    ensures Dequoted(tok, i) == s
    decreases |s|
  {
    hide Dequoted, Escaped, EscapedChar, Unescaped;
    DequotedStep(tok, i);
    EscapedStep(s);
    Suffix(tok, i, "", Escaped(s) + "\"");
    if s != "" {
      var c := EscapedChar(s[0]);
      Suffix(tok, i, c, Escaped(s[1..]) + "\"");
      DequoteFrom(tok, i + |c|, s[1..]);
      CharUndone(tok, i, s[0]);
      assert s == [s[0]] + s[1..];
    }
  }

  function EscapedChar(c: char): (r: string)
    ensures |r| > 0
  {
    if c == '"' || c == '\\' then ['\\', c] else [c]
  }

  lemma EscapedStep(s: CString)
    ensures s == "" ==> Escaped(s) + "\"" == "\""
    ensures s != "" ==> Escaped(s) + "\"" == EscapedChar(s[0]) + (Escaped(s[1..]) + "\"")
  {
  }

  lemma CharUndone(tok: CString, i: nat, c: char)
    requires |tok| >= 2 && c != '\0' && i + |EscapedChar(c)| < |tok|
    requires forall k :: 0 <= k < |EscapedChar(c)| ==> tok[i + k] == EscapedChar(c)[k]
    ensures Dequoted(tok, i) == [c] + Dequoted(tok, i + |EscapedChar(c)|)
  {
    hide Dequoted, Unescaped;
    DequotedStep(tok, i);
    assert tok[i + 0] == EscapedChar(c)[0];
    if c == '"' || c == '\\' {
      assert tok[i + 1] == EscapedChar(c)[1];
      ItselfEscaped(c, i + 1, |tok|);
    }
  }

  lemma ItselfEscaped(c: char, i: nat, n: nat)
    requires c == '"' || c == '\\'
    ensures Unescaped(c, i, n) == [c]
  {
  }

  lemma Suffix(tok: string, i: nat, a: string, b: string)
    requires i <= |tok| && tok[i..] == a + b
    ensures |tok| == i + |a| + |b| && tok[i + |a|..] == b
    ensures forall k :: 0 <= k < |a| ==> tok[i + k] == a[k]
    ensures b != "" ==> tok[i + |a|] == b[0]
  {
    assert tok[i..][|a|..] == b;
    forall k | 0 <= k < |a|
      ensures tok[i + k] == a[k]
    {
      assert tok[i..][k] == a[k];
    }
    assert b != "" ==> tok[i..][|a|] == b[0];
  }

  /** Unquoting undoes quoting. */
  lemma DequoteQuoted(s: CString)
    ensures |Quoted(s)| >= 2 && Dequoted(Quoted(s), 1) == s
  {
    assert Quoted(s)[1..] == Escaped(s) + "\"";
    DequoteFrom(Quoted(s), 1, s);
  }

  // ---------------------------------------------------------------- the printer

  /** The text of a value. */
  function Rendered(v: Value): (text: CString)
    ensures text != ""
    decreases v, 1
  {
    match v
    case Absent => "null"
    case False => "false"
    case True => "true"
    case Null => "null"
    case Real(r) => NumberText(r)
    case String(z) => Quoted(z)
    case Array(elems) => if elems == [] then "[]" else RenderedElems(elems, '[')
    case Struct(members) => if members == [] then "{}" else RenderedMembers(members, '{')
  }

  /** A lexeme as text: never empty, and without a terminator in it. */
  function NumberText(r: Lexeme): (text: CString)
    ensures text == r && text != ""
  {
    LexemeIsText(r);
    r
  }

  lemma LexemeIsText(r: Lexeme)
    ensures NulFree(r) && r != ""
  {
    var n: Number :| n.Valid() && n.Text() == r;
    assert NulFree(n.whole) && NulFree(n.frac) && NulFree(n.exp);
  }

  function RenderedElems(elems: seq<Value>, sep: char): (text: CString)
    requires sep != '\0'
    ensures text != ""
    decreases elems, 0
  {
    if elems == [] then "]" else [sep] + Rendered(elems[0]) + RenderedElems(elems[1..], ',')
  }

  function RenderedMembers(members: seq<Member<Lexeme>>, sep: char): (text: CString)
    requires sep != '\0'
    ensures text != ""
    decreases members, 0
  {
    if members == [] then "}"
    else [sep] + Quoted(members[0].name) + ":" + Rendered(members[0].value) + RenderedMembers(members[1..], ',')
  }

  // ---------------------------------------------------------------- the tokenizer

  datatype Kind =
    | KFalse | KTrue | KReal | KNull | KString | KBeginArray | KBeginStruct
    | KEndArray | KComma | KEndStruct | KColon | KEof | KError

  /** The current token: its first character, its length and its kind. */
  datatype Lexer = Lexer(cur: nat, n: nat, kind: Kind)

  function SkipSpace(z: CString, i: nat): (j: nat)
    requires i <= |z|
    ensures i <= j <= |z| && (j < |z| ==> !IsSpace(z[j]))
    decreases |z| - i
  {
    if i < |z| && IsSpace(z[i]) then SkipSpace(z, i + 1) else i
  }

  predicate WordAt(z: CString, i: nat, word: string) {
    TextAt(z, i, word) && (i + |word| == |z| || !IsIdent(z[i + |word|]))
  }

  /** The token that starts at a character that is not a space. */
  function TokenAt(z: CString, i: nat): (t: Lexer)
    requires i < |z|
    ensures t.cur == i && 1 <= t.n && i + t.n <= |z| && t.kind != KEof
  {
    var c := z[i];
    if c == '"' then
      var e := QuoteEnd(z, i + 1);
      if e < |z| then Lexer(i, e + 1 - i, KString)
      else Lexer(i, (if e <= |z| then e else |z|) - i, KError)
    else if c == '{' then Lexer(i, 1, KBeginStruct)
    else if c == '}' then Lexer(i, 1, KEndStruct)
    else if c == '[' then Lexer(i, 1, KBeginArray)
    else if c == ']' then Lexer(i, 1, KEndArray)
    else if c == ',' then Lexer(i, 1, KComma)
    else if c == ':' then Lexer(i, 1, KColon)
    else if c == 't' then if WordAt(z, i, "true") then Lexer(i, 4, KTrue) else Lexer(i, 1, KError)
    else if c == 'f' then if WordAt(z, i, "false") then Lexer(i, 5, KFalse) else Lexer(i, 1, KError)
    else if c == 'n' then if WordAt(z, i, "null") then Lexer(i, 4, KNull) else Lexer(i, 1, KError)
    else if c == '-' || IsDigit(c) then
      var e := NumberEnd(z, i);
      if e > i then Lexer(i, e - i, KReal) else Lexer(i, 1, KError)
    else Lexer(i, 1, KError)
  }

  /** The state after the current token; at the end of the text the position stays behind. */
  function Next(z: CString, p: Lexer): (q: Lexer)
    requires p.cur + p.n <= |z|
    ensures q.cur + q.n <= |z|
    ensures q.kind != KEof ==> q.cur < |z| && q == TokenAt(z, q.cur) && q.cur + q.n > p.cur + p.n
  {
    var i := SkipSpace(z, p.cur + p.n);
    if i >= |z| then Lexer(p.cur, 0, KEof) else TokenAt(z, i)
  }

  /** A state of the tokenizer: at the end, or on a token of the text. */
  predicate OnToken(z: CString, p: Lexer) {
    p.cur + p.n <= |z| && (p.kind != KEof ==> p.cur < |z| && p == TokenAt(z, p.cur))
  }

  /** What is left to read, counting the current token. */
  function Left(z: CString, p: Lexer): nat
    requires OnToken(z, p)
  {
    if p.kind == KEof then 0 else |z| - (p.cur + p.n) + 1
  }

  // ---------------------------------------------------------------- the parser

  function TokenText(z: CString, p: Lexer): (s: CString)
    requires OnToken(z, p)
    ensures |s| == p.n
  {
    z[p.cur..p.cur + p.n]
  }

  function StringValue(z: CString, p: Lexer): CString
    requires OnToken(z, p) && p.kind == KString
  {
    Dequoted(TokenText(z, p), 1)
  }

  function NumberValue(z: CString, p: Lexer): Lexeme
    requires OnToken(z, p) && p.kind == KReal
  {
    ScannedNumber(z, p.cur);
    TokenText(z, p)
  }

  /**
   * The value that starts at the current token, and the state after it. An empty struct leaves its
   * closing brace unread, and anything that is not a value reads as a null pointer.
   */
  function ParseValue(z: CString, p: Lexer): (r: (Value, Lexer))
    requires OnToken(z, p)
    ensures OnToken(z, r.1) && Left(z, r.1) <= Left(z, p)
    decreases Left(z, p), 0
  {
    match p.kind
    case KBeginStruct =>
      var q := Next(z, p);
      if q.kind == KEndStruct then (Struct([]), q) else ParseMembers(z, q, [])
    case KBeginArray =>
      var q := Next(z, p);
      if q.kind == KEndArray then (Array([]), Next(z, q)) else ParseElems(z, q, [])
    case KString => (String(StringValue(z, p)), Next(z, p))
    case KReal => (Real(NumberValue(z, p)), Next(z, p))
    case KTrue => (True, Next(z, p))
    case KFalse => (False, Next(z, p))
    case KNull => (Null, Next(z, p))
    case _ => (Absent, p)
  }

  /** The elements of an array after those read already. */
  function ParseElems(z: CString, p: Lexer, done: seq<Value>): (r: (Value, Lexer))
    requires OnToken(z, p)
    ensures OnToken(z, r.1) && Left(z, r.1) <= Left(z, p)
    ensures r.0.Absent? || (r.0.Array? && done + [ParseValue(z, p).0] <= r.0.elems)
    decreases Left(z, p), 1
  {
    var (v, q) := ParseValue(z, p);
    if q.kind == KComma then ParseElems(z, Next(z, q), done + [v])
    else if q.kind == KEndArray then (Array(done + [v]), Next(z, q))
    else (Absent, q)
  }

  /** The members of a struct after those read already. */
  function ParseMembers(z: CString, p: Lexer, done: seq<Member<Lexeme>>): (r: (Value, Lexer))
    requires OnToken(z, p)
    ensures OnToken(z, r.1) && Left(z, r.1) <= Left(z, p)
    ensures r.0.Absent? || (r.0.Struct? && done < r.0.members)
    decreases Left(z, p), 1
  {
    if p.kind != KString then (Absent, p)
    else
      var q := Next(z, p);
      if q.kind != KColon then (Absent, q)
      else
        var (v, s) := ParseValue(z, Next(z, q));
        var members := done + [Member(StringValue(z, p), v)];
        if s.kind == KComma then ParseMembers(z, Next(z, s), members)
        else if s.kind == KEndStruct then (Struct(members), Next(z, s))
        else (Absent, s)
  }

  /** A whole text as a value. */
  function Parsed(z: CString): Value {
    ParseValue(z, Next(z, Lexer(0, 0, KFalse))).0
  }

  // ---------------------------------------------------------------- the round trip

  /** No null pointer and no empty struct anywhere. */
  predicate Clean(v: Value)
    decreases v, 1
  {
    match v
    case Absent => false
    case Array(elems) => CleanElems(elems)
    case Struct(members) => members != [] && CleanMembers(members)
    case _ => true
  }

  predicate CleanElems(elems: seq<Value>)
    decreases elems, 0
  {
    elems == [] || (Clean(elems[0]) && CleanElems(elems[1..]))
  }

  predicate CleanMembers(members: seq<Member<Lexeme>>)
    decreases members, 0
  {
    members == [] || (Clean(members[0].value) && CleanMembers(members[1..]))
  }

  /** Clean, or an empty struct, or a struct whose last member, and it alone, is such a value in turn. */
  predicate TailOk(v: Value)
    decreases v, 1
  {
    Clean(v) || (v.Struct? && TailOkMembers(v.members))
  }

  predicate TailOkMembers(members: seq<Member<Lexeme>>)
    decreases members, 0
  {
    if members == [] then true
    else if |members| == 1 then TailOk(members[0].value)
    else Clean(members[0].value) && TailOkMembers(members[1..])
  }

  /** The state of a tokenizer that has read the text up to `e`. */
  predicate Sees(z: CString, e: nat, p: Lexer)
    requires e <= |z|
  {
    var t := Next(z, Lexer(e, 0, KFalse));
    p.kind == t.kind && (t.kind != KEof ==> p == t)
  }

  lemma NextSees(z: CString, p: Lexer, e: nat)
    requires p.cur + p.n == e <= |z|
    ensures Sees(z, e, Next(z, p))
  {
  }

  /** The kind of a token that is one character. */
  predicate Punctuation(c: char, kind: Kind) {
    || (c == '{' && kind == KBeginStruct) || (c == '}' && kind == KEndStruct)
    || (c == '[' && kind == KBeginArray) || (c == ']' && kind == KEndArray)
    || (c == ',' && kind == KComma) || (c == ':' && kind == KColon)
  }

  lemma SeesPunctuation(z: CString, e: nat, p: Lexer, kind: Kind)
    requires e < |z| && Sees(z, e, p) && Punctuation(z[e], kind)
    ensures p == Lexer(e, 1, kind) && OnToken(z, p)
  {
  }

  lemma SeesToken(z: CString, e: nat, p: Lexer)
    requires e < |z| && Sees(z, e, p) && !IsSpace(z[e])
    ensures p == TokenAt(z, e) && OnToken(z, p)
  {
  }

  /**
   * How reading the text of `v` up to `e` ends: with `v`, past its text or, if an empty struct closes it,
   * on its closing brace; or with another value.
   */
  predicate Outcome(z: CString, e: nat, v: Value, r: (Value, Lexer))
    requires e <= |z|
  {
    && (Clean(v) ==> r.0 == v && Sees(z, e, r.1))
    && (TailOk(v) && !Clean(v) ==> r.0 == v && e > 0 && z[e - 1] == '}' && Sees(z, e - 1, r.1))
    && (!TailOk(v) ==> r.0 != v)
  }

  lemma WordRead(z: CString, i: nat, word: string, p: Lexer)
    requires word == "true" || word == "false" || word == "null"
    requires TextAt(z, i, word) && Closes(z, i + |word|) && Sees(z, i, p)
    ensures OnToken(z, p) && p.cur == i && p.n == |word|
    ensures p.kind == if word == "true" then KTrue else if word == "false" then KFalse else KNull
  {
    CharAt(z, i, word, 0);
    SeesToken(z, i, p);
  }

  lemma StringRead(z: CString, i: nat, s: CString, p: Lexer)
    requires TextAt(z, i, Quoted(s)) && Sees(z, i, p)
    ensures OnToken(z, p) && p == Lexer(i, |Quoted(s)|, KString) && StringValue(z, p) == s
  {
    CharAt(z, i, Quoted(s), 0);
    assert Quoted(s) == "\"" + (Escaped(s) + "\"");
    TextParts(z, i, "\"", Escaped(s) + "\"");
    EscapedScanned(z, i + 1, s);
    SeesToken(z, i, p);
    DequoteQuoted(s);
    TextIs(z, i, Quoted(s), i + |Quoted(s)|);
  }

  lemma NumberRead(z: CString, i: nat, r: Lexeme, p: Lexer)
    requires TextAt(z, i, NumberText(r)) && Closes(z, i + |r|) && Sees(z, i, p)
    ensures OnToken(z, p) && p == Lexer(i, |r|, KReal) && NumberValue(z, p) == r
  {
    var n: Number :| n.Valid() && n.Text() == r;
    NumberScanned(z, i, n);
    SeesToken(z, i, p);
    TextIs(z, i, r, i + |r|);
  }

  /** Reading the text of a value, wherever it stands. */
  lemma {:induction false} ParseRendered(z: CString, i: nat, v: Value, p: Lexer)
    requires TextAt(z, i, Rendered(v)) && Closes(z, i + |Rendered(v)|) && Sees(z, i, p)
    ensures OnToken(z, p) && Outcome(z, i + |Rendered(v)|, v, ParseValue(z, p))
    decreases v, 1
  {
    hide TextAt, Closes, Next, TokenAt, Sees;
    var e := i + |Rendered(v)|;
    match v {
      case Absent => WordRead(z, i, "null", p); NextSees(z, p, e);
      case False => WordRead(z, i, "false", p); NextSees(z, p, e);
      case True => WordRead(z, i, "true", p); NextSees(z, p, e);
      case Null => WordRead(z, i, "null", p); NextSees(z, p, e);
      case Real(r) => NumberRead(z, i, r, p); NextSees(z, p, e);
      case String(s) => StringRead(z, i, s, p); NextSees(z, p, e);
      case Array(elems) => ParseArray(z, i, elems, p);
      case Struct(members) => ParseStruct(z, i, members, p);
    }
  }

  lemma TailStarts(z: CString, e: nat, elems: seq<Value>)
    requires TextAt(z, e, RenderedElems(elems, ','))
    ensures e + |RenderedElems(elems, ',')| <= |z|
    ensures e < |z| && z[e] == (if elems == [] then ']' else ',') && Closes(z, e)
    ensures Punctuation(z[e], if elems == [] then KEndArray else KComma)
  {
    CharAt(z, e, RenderedElems(elems, ','), 0);
  }

  lemma {:induction false} ParseArray(z: CString, i: nat, elems: seq<Value>, p: Lexer)
    requires TextAt(z, i, Rendered(Array(elems))) && Closes(z, i + |Rendered(Array(elems))|) && Sees(z, i, p)
    ensures OnToken(z, p) && Outcome(z, i + |Rendered(Array(elems))|, Array(elems), ParseValue(z, p))
    decreases elems, 3
  {
    hide *;
    ArrayStarts(z, i, elems, p);
    var q := Next(z, p);
    ParseArrayStep(z, p);
    if elems == [] {
      assert CleanElems(elems) by { NoElems(); }
      SeesPunctuation(z, i + 1, q, KEndArray);
      NextSees(z, q, i + 2);
    } else {
      ParseRenderedElems(z, i + 1, elems, [], q);
      StartsValue(z, i + 1, elems[0], RenderedElems(elems[1..], ','), q);
      assert [] + elems == elems;
    }
    ArrayOutcome(z, i + |Rendered(Array(elems))|, elems, ParseValue(z, p));
  }

  /** The text of an array: a bracket, and behind it the end or the first element. */
  lemma ArrayStarts(z: CString, i: nat, elems: seq<Value>, p: Lexer)
    requires TextAt(z, i, Rendered(Array(elems))) && Sees(z, i, p)
    ensures OnToken(z, p) && p == Lexer(i, 1, KBeginArray) && i + |Rendered(Array(elems))| <= |z|
    ensures i + 1 <= |z| && Sees(z, i + 1, Next(z, p)) && OnToken(z, Next(z, p))
    ensures elems == [] ==> i + 1 < |z| && Punctuation(z[i + 1], KEndArray) && |Rendered(Array(elems))| == 2
    ensures elems != [] ==>
      && TextAt(z, i + 1, Rendered(elems[0]) + RenderedElems(elems[1..], ','))
      && |Rendered(Array(elems))| == 1 + |Rendered(elems[0])| + |RenderedElems(elems[1..], ',')|
  {
    hide TextAt, Next, TokenAt, Sees;
    var text := Rendered(Array(elems));
    CharAt(z, i, text, 0);
    SeesPunctuation(z, i, p, KBeginArray);
    NextSees(z, p, i + 1);
    NextOnToken(z, p);
    if elems == [] {
      CharAt(z, i, text, 1);
    } else {
      var inner := Rendered(elems[0]) + RenderedElems(elems[1..], ',');
      assert text == "[" + inner;
      TextParts(z, i, "[", inner);
    }
  }

  lemma NextOnToken(z: CString, p: Lexer)
    requires p.cur + p.n <= |z|
    ensures OnToken(z, Next(z, p))
  {
  }

  lemma ParseArrayStep(z: CString, p: Lexer)
    requires OnToken(z, p) && p.kind == KBeginArray
    ensures var q := Next(z, p);
      && OnToken(z, q)
      && ParseValue(z, p) == if q.kind == KEndArray then (Array([]), Next(z, q)) else ParseElems(z, q, [])
  {
    hide Next, TokenAt, ParseElems;
  }

  lemma NoElems()
    ensures CleanElems([])
  {
  }

  lemma ArrayOutcome(z: CString, e: nat, elems: seq<Value>, r: (Value, Lexer))
    requires e <= |z|
    requires CleanElems(elems) ==> r.0 == Array(elems) && Sees(z, e, r.1)
    requires !CleanElems(elems) ==> r.0 != Array(elems)
    ensures Outcome(z, e, Array(elems), r)
  {
    hide Sees;
  }

  lemma ValueStarts(v: Value)
    ensures var c := Rendered(v)[0]; !IsSpace(c) && c != ']' && c != '}'
  {
    if v.Real? {
      var n: Number :| n.Valid() && n.Text() == v.r;
      assert IsDigit(n.whole[0]);
      assert v.r[0] == '-' || v.r[0] == n.whole[0];
    }
  }

  /** The text of a value never starts like the end of an array or of a struct. */
  lemma StartsValue(z: CString, i: nat, v: Value, tail: CString, q: Lexer)
    requires TextAt(z, i, Rendered(v) + tail) && Sees(z, i, q)
    ensures q.kind != KEndArray && q.kind != KEndStruct
  {
    TextParts(z, i, Rendered(v), tail);
    CharAt(z, i, Rendered(v), 0);
    ValueStarts(v);
    SeesToken(z, i, q);
  }

  lemma {:induction false} ParseRenderedElems(z: CString, i: nat, elems: seq<Value>, done: seq<Value>, p: Lexer)
    requires elems != []
    requires TextAt(z, i, Rendered(elems[0]) + RenderedElems(elems[1..], ',')) && Sees(z, i, p)
    ensures OnToken(z, p)
    ensures var e := i + |Rendered(elems[0])| + |RenderedElems(elems[1..], ',')|;
      var r := ParseElems(z, p, done);
      && e <= |z|
      && (CleanElems(elems) ==> r.0 == Array(done + elems) && Sees(z, e, r.1))
      && (!CleanElems(elems) ==> r.0 != Array(done + elems))
    decreases elems, 2
  {
    hide *;
    var v, rest := elems[0], elems[1..];
    var e := i + |Rendered(v)|;
    TextParts(z, i, Rendered(v), RenderedElems(rest, ','));
    TailStarts(z, e, rest);
    ParseRendered(z, i, v, p);
    ParseElemsStep(z, p, done);
    CleanElemsStep(elems);
    var r := ParseValue(z, p);
    var q := r.1;
    OutcomeSays(z, e, v, r);
    assert (done + elems)[|done|] == v && done + [v] + rest == done + elems;
    if Clean(v) && rest != [] {
      SeesPunctuation(z, e, q, KComma);
      NextSees(z, q, e + 1);
      NextElem(z, e, rest);
      ParseRenderedElems(z, e + 1, rest, done + [v], Next(z, q));
    } else if Clean(v) {
      SeesPunctuation(z, e, q, KEndArray);
      NextSees(z, q, e + 1);
      EndsArray();
    } else if TailOk(v) {
      SeesPunctuation(z, e - 1, q, KEndStruct);
    }
  }

  lemma EndsArray()
    ensures RenderedElems([], ',') == "]" && CleanElems([])
  {
  }

  lemma NextElem(z: CString, e: nat, rest: seq<Value>)
    requires rest != [] && TextAt(z, e, RenderedElems(rest, ','))
    ensures TextAt(z, e + 1, Rendered(rest[0]) + RenderedElems(rest[1..], ','))
    ensures |RenderedElems(rest, ',')| == 1 + |Rendered(rest[0])| + |RenderedElems(rest[1..], ',')|
  {
    hide TextAt;
    var inner := Rendered(rest[0]) + RenderedElems(rest[1..], ',');
    assert RenderedElems(rest, ',') == "," + inner;
    TextParts(z, e, ",", inner);
  }

  lemma CleanElemsStep(elems: seq<Value>)
    requires elems != []
    ensures CleanElems(elems) <==> Clean(elems[0]) && CleanElems(elems[1..])
  {
  }

  lemma ParseElemsStep(z: CString, p: Lexer, done: seq<Value>)
    requires OnToken(z, p)
    ensures var (v, q) := ParseValue(z, p);
      && OnToken(z, q)
      && (q.kind == KComma ==> OnToken(z, Next(z, q)) && ParseElems(z, p, done) == ParseElems(z, Next(z, q), done + [v]))
      && (q.kind == KEndArray ==> ParseElems(z, p, done) == (Array(done + [v]), Next(z, q)))
      && (q.kind != KComma && q.kind != KEndArray ==> ParseElems(z, p, done) == (Absent, q))
    ensures var r := ParseElems(z, p, done);
      r.0.Absent? || (r.0.Array? && |r.0.elems| > |done| && r.0.elems[|done|] == ParseValue(z, p).0)
  {
    hide Next, TokenAt, ParseValue;
  }

  lemma OutcomeSays(z: CString, e: nat, v: Value, r: (Value, Lexer))
    requires e <= |z| && Outcome(z, e, v, r)
    ensures Clean(v) ==> TailOk(v) && r.0 == v && Sees(z, e, r.1)
    ensures TailOk(v) && !Clean(v) ==>
      r.0 == v && e > 0 && z[e - 1] == '}' && Punctuation(z[e - 1], KEndStruct) && Sees(z, e - 1, r.1)
    ensures !TailOk(v) ==> r.0 != v
  {
    hide Sees;
  }

  lemma MembersTailStarts(z: CString, e: nat, members: seq<Member<Lexeme>>)
    requires TextAt(z, e, RenderedMembers(members, ','))
    ensures e + |RenderedMembers(members, ',')| <= |z|
    ensures e < |z| && z[e] == (if members == [] then '}' else ',') && Closes(z, e)
    ensures Punctuation(z[e], if members == [] then KEndStruct else KComma)
  {
    CharAt(z, e, RenderedMembers(members, ','), 0);
  }

  lemma {:induction false} ParseStruct(z: CString, i: nat, members: seq<Member<Lexeme>>, p: Lexer)
    requires TextAt(z, i, Rendered(Struct(members))) && Closes(z, i + |Rendered(Struct(members))|) && Sees(z, i, p)
    ensures OnToken(z, p) && Outcome(z, i + |Rendered(Struct(members))|, Struct(members), ParseValue(z, p))
    decreases members, 3
  {
    hide *;
    StructStarts(z, i, members, p);
    var q := Next(z, p);
    ParseStructStep(z, p);
    if members == [] {
      SeesPunctuation(z, i + 1, q, KEndStruct);
      EmptyOutcome(z, i + 2, q, ParseValue(z, p));
    } else {
      ParseRenderedMembers(z, i + 1, members, [], q);
      MemberStarts(z, i + 1, members, q);
      assert [] + members == members;
      StructOutcome(z, i + |Rendered(Struct(members))|, members, ParseValue(z, p));
    }
  }

  /** The text of a struct: a brace, and behind it the end or the first member. */
  lemma StructStarts(z: CString, i: nat, members: seq<Member<Lexeme>>, p: Lexer)
    requires TextAt(z, i, Rendered(Struct(members))) && Sees(z, i, p)
    ensures OnToken(z, p) && p == Lexer(i, 1, KBeginStruct) && i + |Rendered(Struct(members))| <= |z|
    ensures i + 1 <= |z| && Sees(z, i + 1, Next(z, p)) && OnToken(z, Next(z, p))
    ensures members == [] ==>
      i + 1 < |z| && z[i + 1] == '}' && Punctuation(z[i + 1], KEndStruct) && |Rendered(Struct(members))| == 2
    ensures members != [] ==>
      TextAt(z, i + 1, MemberText(members)) && |Rendered(Struct(members))| == 1 + |MemberText(members)|
  {
    hide TextAt, Next, TokenAt, Sees;
    var text := Rendered(Struct(members));
    CharAt(z, i, text, 0);
    SeesPunctuation(z, i, p, KBeginStruct);
    NextSees(z, p, i + 1);
    NextOnToken(z, p);
    if members == [] {
      CharAt(z, i, text, 1);
    } else {
      assert text == "{" + MemberText(members);
      TextParts(z, i, "{", MemberText(members));
    }
  }

  lemma ParseStructStep(z: CString, p: Lexer)
    requires OnToken(z, p) && p.kind == KBeginStruct
    ensures var q := Next(z, p);
      && OnToken(z, q)
      && ParseValue(z, p) == if q.kind == KEndStruct then (Struct([]), q) else ParseMembers(z, q, [])
  {
    hide Next, TokenAt, ParseMembers;
  }

  lemma EmptyOutcome(z: CString, e: nat, q: Lexer, r: (Value, Lexer))
    requires 0 < e <= |z| && z[e - 1] == '}' && Sees(z, e - 1, q) && r == (Struct([]), q)
    ensures Outcome(z, e, Struct([]), r)
  {
    hide Sees;
  }

  lemma StructOutcome(z: CString, e: nat, members: seq<Member<Lexeme>>, r: (Value, Lexer))
    requires e <= |z| && members != [] && MembersOutcome(z, e, members, members, r)
    ensures Outcome(z, e, Struct(members), r)
  {
    hide Sees;
    CleanIsTailOk(members);
  }

  lemma {:induction false} CleanIsTailOk(members: seq<Member<Lexeme>>)
    ensures CleanMembers(members) ==> TailOkMembers(members)
  {
    if |members| > 1 {
      CleanIsTailOk(members[1..]);
    }
  }

  /** The text of the members of a struct behind its opening brace. */
  function MemberText(members: seq<Member<Lexeme>>): CString
    requires members != []
  {
    Quoted(members[0].name) + ":" + Rendered(members[0].value) + RenderedMembers(members[1..], ',')
  }

  lemma MemberStarts(z: CString, i: nat, members: seq<Member<Lexeme>>, q: Lexer)
    requires members != [] && TextAt(z, i, MemberText(members)) && Sees(z, i, q)
    ensures q.kind == KString
  {
    hide TextAt, Next, TokenAt, Sees;
    MemberParts(z, i, members);
    StringRead(z, i, members[0].name, q);
  }

  lemma MemberParts(z: CString, i: nat, members: seq<Member<Lexeme>>)
    requires members != [] && TextAt(z, i, MemberText(members))
    ensures var a := i + |Quoted(members[0].name)|; var e := a + 1 + |Rendered(members[0].value)|;
      && TextAt(z, i, Quoted(members[0].name))
      && a < |z| && z[a] == ':'
      && TextAt(z, a + 1, Rendered(members[0].value))
      && TextAt(z, e, RenderedMembers(members[1..], ','))
      && i + |MemberText(members)| == e + |RenderedMembers(members[1..], ',')|
  {
    var q, v, t := Quoted(members[0].name), Rendered(members[0].value), RenderedMembers(members[1..], ',');
    TextParts(z, i, q + ":" + v, t);
    TextParts(z, i, q + ":", v);
    TextParts(z, i, q, ":");
    CharAt(z, i + |q|, ":", 0);
  }

  /** How reading the members of a struct ends, as for a whole value. */
  predicate MembersOutcome(z: CString, e: nat, members: seq<Member<Lexeme>>, all: seq<Member<Lexeme>>, r: (Value, Lexer))
    requires e <= |z|
  {
    && (CleanMembers(members) ==> r.0 == Struct(all) && Sees(z, e, r.1))
    && (TailOkMembers(members) && !CleanMembers(members) ==>
          r.0 == Struct(all) && e > 0 && z[e - 1] == '}' && Sees(z, e - 1, r.1))
    && (!TailOkMembers(members) ==> r.0 != Struct(all))
  }

  lemma {:induction false} ParseRenderedMembers(z: CString, i: nat, members: seq<Member<Lexeme>>,
                                                done: seq<Member<Lexeme>>, p: Lexer)
    requires members != [] && TextAt(z, i, MemberText(members)) && Sees(z, i, p)
    ensures OnToken(z, p) && i + |MemberText(members)| <= |z|
    ensures MembersOutcome(z, i + |MemberText(members)|, members, done + members, ParseMembers(z, p, done))
    decreases members, 2
  {
    hide *;
    var m, rest := members[0], members[1..];
    var a := i + |Quoted(m.name)|;
    var e := a + 1 + |Rendered(m.value)|;
    MemberParts(z, i, members);
    MembersTailStarts(z, e, rest);
    StringRead(z, i, m.name, p);
    var q := Next(z, p);
    NextSees(z, p, a);
    SeesPunctuation(z, a, q, KColon);
    var t := Next(z, q);
    NextSees(z, q, a + 1);
    ParseRendered(z, a + 1, m.value, t);
    ParseMembersStep(z, p, done);
    CleanMembersStep(members);
    var r := ParseValue(z, t);
    var u, all, result := r.1, done + members, ParseMembers(z, p, done);
    OutcomeSays(z, e, m.value, r);
    assert all[|done|] == m && done + [m] + rest == all;
    if Clean(m.value) && rest != [] {
      SeesPunctuation(z, e, u, KComma);
      NextSees(z, u, e + 1);
      NextMember(z, e, rest);
      ParseRenderedMembers(z, e + 1, rest, done + [m], Next(z, u));
      OutcomeLater(z, i + |MemberText(members)|, members, all, result);
    } else if Clean(m.value) {
      SeesPunctuation(z, e, u, KEndStruct);
      NextSees(z, u, e + 1);
      LastBrace(z, e, rest);
      OutcomeClean(z, e + 1, members, all, result);
    } else if TailOk(m.value) {
      SeesPunctuation(z, e - 1, u, KEndStruct);
      NextSees(z, u, e);
      LastBrace(z, e, rest);
      if rest == [] {
        OutcomeTail(z, e + 1, members, all, result);
      } else {
        OutcomeOther(z, i + |MemberText(members)|, members, all, result);
      }
    } else {
      OutcomeOther(z, i + |MemberText(members)|, members, all, result);
    }
  }

  lemma OutcomeLater(z: CString, e: nat, members: seq<Member<Lexeme>>, all: seq<Member<Lexeme>>, r: (Value, Lexer))
    requires e <= |z| && |members| > 1 && Clean(members[0].value) && MembersOutcome(z, e, members[1..], all, r)
    ensures MembersOutcome(z, e, members, all, r)
  {
    hide Sees, Clean, TailOk;
  }

  lemma OutcomeClean(z: CString, e: nat, members: seq<Member<Lexeme>>, all: seq<Member<Lexeme>>, r: (Value, Lexer))
    requires e <= |z| && CleanMembers(members) && r.0 == Struct(all) && Sees(z, e, r.1)
    ensures MembersOutcome(z, e, members, all, r)
  {
    hide Sees, Clean, TailOk;
    CleanIsTailOk(members);
  }

  lemma OutcomeTail(z: CString, e: nat, members: seq<Member<Lexeme>>, all: seq<Member<Lexeme>>, r: (Value, Lexer))
    requires 0 < e <= |z| && !CleanMembers(members) && TailOkMembers(members)
    requires r.0 == Struct(all) && z[e - 1] == '}' && Sees(z, e - 1, r.1)
    ensures MembersOutcome(z, e, members, all, r)
  {
    hide Sees, Clean, TailOk;
  }

  lemma OutcomeOther(z: CString, e: nat, members: seq<Member<Lexeme>>, all: seq<Member<Lexeme>>, r: (Value, Lexer))
    requires e <= |z| && !TailOkMembers(members) && r.0 != Struct(all)
    ensures MembersOutcome(z, e, members, all, r)
  {
    hide Sees, Clean, TailOk;
    CleanIsTailOk(members);
  }

  lemma NextMember(z: CString, e: nat, rest: seq<Member<Lexeme>>)
    requires rest != [] && TextAt(z, e, RenderedMembers(rest, ','))
    ensures TextAt(z, e + 1, MemberText(rest)) && |RenderedMembers(rest, ',')| == 1 + |MemberText(rest)|
  {
    hide TextAt;
    MembersText(rest);
    TextParts(z, e, ",", MemberText(rest));
  }

  lemma ParseMembersStep(z: CString, p: Lexer, done: seq<Member<Lexeme>>)
    requires OnToken(z, p) && p.kind == KString && Next(z, p).kind == KColon && OnToken(z, Next(z, p))
    ensures var t := Next(z, Next(z, p)); var (v, u) := ParseValue(z, t);
      var m, r := Member(StringValue(z, p), v), ParseMembers(z, p, done);
      && OnToken(z, t) && OnToken(z, u)
      && (u.kind == KComma ==> OnToken(z, Next(z, u)) && r == ParseMembers(z, Next(z, u), done + [m]))
      && (u.kind == KEndStruct ==> r == (Struct(done + [m]), Next(z, u)))
      && (r.0.Absent? || (r.0.Struct? && |r.0.members| > |done| && r.0.members[|done|] == m))
  {
    hide Next, TokenAt, ParseValue, StringValue;
  }

  lemma CleanMembersStep(members: seq<Member<Lexeme>>)
    requires members != []
    ensures CleanMembers(members) <==> Clean(members[0].value) && CleanMembers(members[1..])
    ensures |members| == 1 ==> (TailOkMembers(members) <==> TailOk(members[0].value)) && CleanMembers(members[1..])
    ensures |members| > 1 ==> (TailOkMembers(members) <==> Clean(members[0].value) && TailOkMembers(members[1..]))
  {
  }

  lemma MembersText(members: seq<Member<Lexeme>>)
    requires members != []
    ensures RenderedMembers(members, ',') == "," + MemberText(members)
  {
  }

  lemma LastBrace(z: CString, e: nat, rest: seq<Member<Lexeme>>)
    requires TextAt(z, e, RenderedMembers(rest, ','))
    ensures rest == [] ==> RenderedMembers(rest, ',') == "}" && e < |z| && z[e] == '}'
  {
    MembersTailStarts(z, e, rest);
  }

  /**
   * Printing and parsing give a value back if and only if no null pointer is in it and no empty struct
   * is followed by anything but closing braces of structs.
   */
  lemma RoundTrip(v: Value)
    ensures Parsed(Rendered(v)) == v <==> TailOk(v)
  {
    hide Rendered, Next, ParseValue, TailOk;
    var z := Rendered(v);
    var p := Next(z, Lexer(0, 0, KFalse));
    assert TextAt(z, 0, z) && Sees(z, 0, p);
    ParseRendered(z, 0, v, p);
  }

  /** Empty structs come back alone and as last members, but not inside arrays or before another member. */
  lemma EmptyStructs()
    ensures ComesBack(Struct([]))
    ensures ComesBack(Struct([Member("a", Struct([]))]))
    ensures !ComesBack(Array([Struct([])]))
    ensures !ComesBack(Struct([Member("a", Struct([])), Member("b", Null)]))
  {
    hide ComesBack;
    var e: Value := Struct([]);
    CameBack(e);
    LastMember(e);
    var v: Value := Array([e]);
    assert !CleanElems(v.elems);
    CameBack(v);
    FirstMember(e);
  }

  predicate ComesBack(v: Value) {
    Parsed(Rendered(v)) == v
  }

  lemma CameBack(v: Value)
    ensures ComesBack(v) <==> TailOk(v)
  {
    hide Parsed, Rendered, TailOk;
    RoundTrip(v);
  }

  lemma LastMember(e: Value)
    requires TailOk(e)
    ensures ComesBack(Struct([Member("a", e)]))
  {
    hide ComesBack;
    var v: Value := Struct([Member("a", e)]);
    assert TailOkMembers(v.members);
    CameBack(v);
  }

  lemma FirstMember(e: Value)
    requires !Clean(e)
    ensures !ComesBack(Struct([Member("a", e), Member("b", Null)]))
  {
    hide ComesBack;
    var v: Value := Struct([Member("a", e), Member("b", Null)]);
    assert !TailOkMembers(v.members) && !CleanMembers(v.members);
    CameBack(v);
  }

  // ---------------------------------------------------------------- as the library runs

  method ScanDigits(z: CString, i: nat) returns (e: nat)
    requires i <= |z|
    ensures e == DigitsEnd(z, i)
  {
    e := i;
    while e < |z| && IsDigit(z[e])
      invariant i <= e <= |z| && DigitsEnd(z, e) == DigitsEnd(z, i)
    {
      e := e + 1;
    }
  }

  method ScanWhole(z: CString, a: nat) returns (e: nat)
    requires a < |z| && IsDigit(z[a])
    ensures e == WholeEnd(z, a)
  {
    if z[a] == '0' {
      e := a + 1;
    } else {
      e := ScanDigits(z, a);
    }
  }

  method ScanNumber(z: CString, i: nat) returns (e: nat)
    requires i < |z| && (z[i] == '-' || IsDigit(z[i]))
    ensures e == NumberEnd(z, i)
  {
    hide DigitsEnd;
    e := i;
    if z[i] == '-' {
      e := i + 1;
      if e >= |z| || !IsDigit(z[e]) {
        return i;
      }
    }
    e := ScanWhole(z, e);
    if e + 1 < |z| && z[e] == '.' && IsDigit(z[e + 1]) {
      e := ScanDigits(z, e + 1);
    }
    if IsExp(z, e) {
      e := ScanDigits(z, e + 2);
    }
  }

  method ScanString(z: CString, i: nat) returns (n: nat, kind: Kind)
    requires i < |z| && z[i] == '"'
    ensures Lexer(i, n, kind) == TokenAt(z, i)
  {
    n := 1;
    while i + n < |z| && z[i + n] != '"'
      invariant 1 <= n && QuoteEnd(z, i + n) == QuoteEnd(z, i + 1)
      decreases |z| - n
    {
      if z[i + n] == '\\' {
        n := n + 1;
      }
      n := n + 1;
    }
    if i + n < |z| {
      n, kind := n + 1, KString;
    } else {
      if i + n > |z| {
        n := |z| - i;
      }
      kind := KError;
    }
  }

  /** The tokenizer over one text. */
  class JsonStr {
    const zIn: CString
    var iCur: nat
    var n: nat
    var eType: Kind

    function State(): Lexer
      reads this
    {
      Lexer(iCur, n, eType)
    }

    constructor (zIn: CString)
      ensures this.zIn == zIn && State() == Lexer(0, 0, KFalse)
    {
      this.zIn := zIn;
      iCur, n, eType := 0, 0, KFalse;
    }

    /** Moves to the next token. */
    method TokenNext()
      requires iCur + n <= |zIn|
      modifies this
      ensures State() == Next(zIn, old(State()))
    {
      hide QuoteEnd, NumberEnd, TextAt, WordAt, IsIdent;
      var i := iCur + n;
      while i < |zIn| && IsSpace(zIn[i])
        invariant i <= |zIn| && SkipSpace(zIn, i) == SkipSpace(zIn, iCur + n)
      {
        i := i + 1;
      }
      if i >= |zIn| {
        n, eType := 0, KEof;
        return;
      }
      iCur := i;
      var c := zIn[i];
      if c == '"' {
        n, eType := ScanString(zIn, i);
      } else if c == '-' || IsDigit(c) {
        var e := ScanNumber(zIn, i);
        n, eType := if e > i then e - i else 1, if e > i then KReal else KError;
      } else {
        n := 1;
        match c {
          case '{' => eType := KBeginStruct;
          case '}' => eType := KEndStruct;
          case '[' => eType := KBeginArray;
          case ']' => eType := KEndArray;
          case ',' => eType := KComma;
          case ':' => eType := KColon;
          case _ =>
            eType := KError;
            if WordAt(zIn, i, "true") {
              n, eType := 4, KTrue;
            } else if WordAt(zIn, i, "false") {
              n, eType := 5, KFalse;
            } else if WordAt(zIn, i, "null") {
              n, eType := 4, KNull;
            }
            WordStarts(zIn, i);
        }
      }
    }

    /** Reads the value that starts at the current token. */
    method ParseJson() returns (v: Value)
      requires OnToken(zIn, State())
      modifies this
      ensures (v, State()) == ParseValue(zIn, old(State()))
      decreases Left(zIn, State()), 0
    {
      match eType {
        case KBeginStruct =>
          TokenNext();
          if eType == KEndStruct {
            return Struct([]);
          }
          v := ParseStructBody();
        case KBeginArray =>
          TokenNext();
          if eType == KEndArray {
            TokenNext();
            return Array([]);
          }
          v := ParseArrayBody();
        case KString =>
          v := String(StringValue(zIn, State()));
          TokenNext();
        case KReal =>
          v := Real(NumberValue(zIn, State()));
          TokenNext();
        case KTrue =>
          v := True;
          TokenNext();
        case KFalse =>
          v := False;
          TokenNext();
        case KNull =>
          v := Null;
          TokenNext();
        case _ =>
          v := Absent;
      }
    }

    method ParseArrayBody() returns (v: Value)
      requires OnToken(zIn, State())
      modifies this
      ensures (v, State()) == ParseElems(zIn, old(State()), [])
      decreases Left(zIn, State()), 1
    {
      var elems: seq<Value> := [];
      while true
        invariant OnToken(zIn, State()) && Left(zIn, State()) <= old(Left(zIn, State()))
        invariant ParseElems(zIn, State(), elems) == ParseElems(zIn, old(State()), [])
        decreases Left(zIn, State())
      {
        var elem := ParseJson();
        elems := elems + [elem];
        if eType == KComma {
          TokenNext();
        } else if eType == KEndArray {
          TokenNext();
          return Array(elems);
        } else {
          return Absent;
        }
      }
    }

    method ParseStructBody() returns (v: Value)
      requires OnToken(zIn, State())
      modifies this
      ensures (v, State()) == ParseMembers(zIn, old(State()), [])
      decreases Left(zIn, State()), 1
    {
      var members: seq<Member<Lexeme>> := [];
      while true
        invariant OnToken(zIn, State()) && Left(zIn, State()) <= old(Left(zIn, State()))
        invariant ParseMembers(zIn, State(), members) == ParseMembers(zIn, old(State()), [])
        decreases Left(zIn, State())
      {
        if eType != KString {
          return Absent;
        }
        var name := StringValue(zIn, State());
        TokenNext();
        if eType != KColon {
          return Absent;
        }
        TokenNext();
        var value := ParseJson();
        members := members + [Member(name, value)];
        if eType == KComma {
          TokenNext();
        } else if eType == KEndStruct {
          TokenNext();
          return Struct(members);
        } else {
          return Absent;
        }
      }
    }
  }

  lemma WordStarts(z: CString, i: nat)
    requires i < |z|
    ensures WordAt(z, i, "true") ==> z[i] == 't'
    ensures WordAt(z, i, "false") ==> z[i] == 'f'
    ensures WordAt(z, i, "null") ==> z[i] == 'n'
  {
    if WordAt(z, i, "true") {
      CharAt(z, i, "true", 0);
    }
    if WordAt(z, i, "false") {
      CharAt(z, i, "false", 0);
    }
    if WordAt(z, i, "null") {
      CharAt(z, i, "null", 0);
    }
  }

  lemma DequotedStep(tok: CString, i: nat)
    requires |tok| >= 2
    ensures i >= |tok| - 1 ==> Dequoted(tok, i) == ""
    ensures i < |tok| - 1 && tok[i] != '\\' ==> Dequoted(tok, i) == [tok[i]] + Dequoted(tok, i + 1)
    ensures i < |tok| - 1 && tok[i] == '\\' ==> Dequoted(tok, i) == Unescaped(tok[i + 1], i + 1, |tok|) + Dequoted(tok, i + 2)
  {
  }

  /** Resolves the escapes of a quoted token in place, the result ending in a terminator. */
  method DequoteString(z: array<char>, n: nat) returns (j: nat)
    requires 2 <= n <= z.Length && NulFree(z[..n]) && z[0] == z[n - 1] == '"'
    modifies z
    ensures j < n && z[j] == '\0'
    ensures z[..j] == Dequoted(old(z[..n]), 1)
    ensures z[n..] == old(z[n..])
  {
    hide Dequoted, Unescaped;
    ghost var tok: CString := z[..n];
    var i := 1;
    j := 0;
    while i < n - 1
      invariant 1 <= i <= n && j < i && (i == n ==> j + 1 < n)
      invariant z[..j] + Dequoted(tok, i) == Dequoted(tok, 1)
      invariant forall k :: i <= k < z.Length ==> z[k] == old(z[k])
    {
      DequotedStep(tok, i);
      var x: string := [z[i]];
      if z[i] == '\\' {
        i := i + 1;
        x := Unescaped(z[i], i, n);
      }
      if x != "" {
        z[j] := x[0];
        assert z[..j + 1] == z[..j] + x;
        j := j + 1;
      }
      i := i + 1;
    }
    DequotedStep(tok, i);
    z[j] := '\0';
  }

  /** A string under construction. */
  class StringBuffer {
    var text: string

    constructor ()
      ensures text == ""
    {
      text := "";
    }

    method Append(s: string)
      modifies this
      ensures text == old(text) + s
    {
      text := text + s;
    }
  }

  method RenderString(out: StringBuffer, z: CString)
    modifies out
    ensures out.text == old(out.text) + Quoted(z)
  {
    out.Append("\"");
    assert z[0..] == z;
    for i := 0 to |z|
      invariant out.text + Escaped(z[i..]) == old(out.text) + "\"" + Escaped(z)
    {
      assert z[i..][1..] == z[i + 1..];
      if z[i] == '"' || z[i] == '\\' {
        out.Append("\\");
      }
      out.Append([z[i]]);
    }
    assert z[|z|..] == "" && Escaped("") == "";
    assert out.text == old(out.text) + "\"" + Escaped(z);
    out.Append("\"");
    assert out.text == old(out.text) + ("\"" + Escaped(z) + "\"");
  }

  /** Appends the text of a value. */
  method JsonRender(out: StringBuffer, v: Value)
    modifies out
    ensures out.text == old(out.text) + Rendered(v)
    decreases v
  {
    match v {
      case Absent => out.Append("null");
      case False => out.Append("false");
      case True => out.Append("true");
      case Null => out.Append("null");
      case Real(r) => out.Append(r);
      case String(z) => RenderString(out, z);
      case Array(elems) => RenderArray(out, elems);
      case Struct(members) => RenderStruct(out, members);
    }
  }

  lemma Appended(t: string, a: string, b: string, c: string, d: string, e: string)
    ensures t + (a + b + c + d + e) == t + a + b + c + d + e
  {
  }

  lemma AppendedThree(t: string, a: string, b: string, c: string)
    ensures t + (a + b + c) == t + a + b + c
  {
  }

  method RenderArray(out: StringBuffer, elems: seq<Value>)
    modifies out
    ensures out.text == old(out.text) + Rendered(Array(elems))
    decreases elems
  {
    hide Rendered, Quoted, RenderedElems;
    var cSep := '[';
    if elems == [] {
      out.Append([cSep]);
    }
    assert elems[0..] == elems;
    ghost var text := if elems == [] then "[]" else RenderedElems(elems, '[');
    for i := 0 to |elems|
      invariant cSep == if i == 0 then '[' else ','
      invariant elems != [] ==> out.text + RenderedElems(elems[i..], cSep) == old(out.text) + text
      invariant elems == [] ==> out.text == old(out.text) + "["
    {
      ElemsText(elems, i, cSep);
      AppendedThree(out.text, [cSep], Rendered(elems[i]), RenderedElems(elems[i + 1..], ','));
      out.Append([cSep]);
      cSep := ',';
      JsonRender(out, elems[i]);
    }
    out.Append("]");
    ElemsText(elems, |elems|, cSep);
    ArrayText(elems);
  }

  lemma ElemsText(elems: seq<Value>, i: nat, sep: char)
    requires i <= |elems| && sep != '\0'
    ensures i == |elems| ==> RenderedElems(elems[i..], sep) == "]"
    ensures i < |elems| ==>
      RenderedElems(elems[i..], sep) == [sep] + Rendered(elems[i]) + RenderedElems(elems[i + 1..], ',')
  {
  }

  lemma ArrayText(elems: seq<Value>)
    ensures Rendered(Array(elems)) == if elems == [] then "[]" else RenderedElems(elems, '[')
  {
  }

  method RenderStruct(out: StringBuffer, members: seq<Member<Lexeme>>)
    modifies out
    ensures out.text == old(out.text) + Rendered(Struct(members))
    decreases members
  {
    hide Rendered, Quoted, RenderedMembers;
    var cSep := '{';
    if members == [] {
      out.Append([cSep]);
    }
    assert members[0..] == members;
    ghost var text := if members == [] then "{}" else RenderedMembers(members, '{');
    for i := 0 to |members|
      invariant cSep == if i == 0 then '{' else ','
      invariant members != [] ==> out.text + RenderedMembers(members[i..], cSep) == old(out.text) + text
      invariant members == [] ==> out.text == old(out.text) + "{"
    {
      MembersTextAt(members, i, cSep);
      ghost var was, name, value := out.text, Quoted(members[i].name), Rendered(members[i].value);
      Appended(was, [cSep], name, ":", value, RenderedMembers(members[i + 1..], ','));
      out.Append([cSep]);
      cSep := ',';
      RenderString(out, members[i].name);
      out.Append(":");
      JsonRender(out, members[i].value);
    }
    out.Append("}");
    MembersTextAt(members, |members|, cSep);
    StructText(members);
  }

  lemma MembersTextAt(members: seq<Member<Lexeme>>, i: nat, sep: char)
    requires i <= |members| && sep != '\0'
    ensures i == |members| ==> RenderedMembers(members[i..], sep) == "}"
    ensures i < |members| ==>
      RenderedMembers(members[i..], sep)
      == [sep] + Quoted(members[i].name) + ":" + Rendered(members[i].value) + RenderedMembers(members[i + 1..], ',')
  {
  }

  lemma StructText(members: seq<Member<Lexeme>>)
    ensures Rendered(Struct(members)) == if members == [] then "{}" else RenderedMembers(members, '{')
  {
  }

  method JsonParse(zIn: CString) returns (v: Value)
    ensures v == Parsed(zIn)
  {
    var x := new JsonStr(zIn);
    x.TokenNext();
    v := x.ParseJson();
  }
}
