/** JSON trees and the text JSON.stringify makes of them, with string escaping as in section 7 of
    RFC 8259, and what a substring filter over such text finds. Numbers are integers. */
module JsonText {
  import opened Common

  datatype Json = Null | Bool(b: bool) | Num(n: int) | Str(s: string) | Arr(items: Items) | Obj(members: Members)
  datatype Items = NoItem | Item(head: Json, tail: Items)
  datatype Members = NoMember | Member(key: string, value: Json, rest: Members)

  datatype Token = Quoted(s: string) | TrueWord | FalseWord | NullWord | Number(n: int) | Mark(c: char)

  predicate IsMark(c: char) {
    c == ',' || c == ':' || c == '[' || c == ']' || c == '{' || c == '}'
  }

  // ---------------------------------------------------------------- strings

  function HexDigit(n: nat): char
    requires n < 16
  {
    if n < 10 then ('0' as int + n) as char else ('a' as int + (n - 10)) as char
  }

  function EscapeChar(c: char): (r: string)
    ensures |r| > 0
    ensures forall j | 0 <= j < |r| && r[j] == '"' :: j == 1 && r[0] == '\\'
    ensures r == [c] <==> c != '"' && c != '\\' && c >= ' '
    ensures r != [c] ==> r[0] == '\\'
  {
    if c == '"' then "\\\""
    else if c == '\\' then "\\\\"
    else if c == 8 as char then "\\b"
    else if c == 12 as char then "\\f"
    else if c == '\n' then "\\n"
    else if c == '\r' then "\\r"
    else if c == '\t' then "\\t"
    else if c < ' ' then "\\u00" + [HexDigit(c as int / 16), HexDigit(c as int % 16)]
    else [c]
  }

  function Escape(s: string): string {
    if s == "" then "" else EscapeChar(s[0]) + Escape(s[1..])
  }

  function Quote(s: string): string { "\"" + Escape(s) + "\"" }

  /** Text that needs no escaping. */
  predicate Plain(s: string) {
    forall i | 0 <= i < |s| :: s[i] != '"' && s[i] != '\\' && s[i] >= ' '
  }

  lemma {:induction false} PlainIsItself(s: string)
    requires Plain(s)
    ensures Escape(s) == s
  {
    if s != "" {
      PlainIsItself(s[1..]);
      assert s == [s[0]] + s[1..];
    }
  }

  function HexValue(c: char): Option<nat> {
    if '0' <= c <= '9' then Some(c as int - '0' as int)
    else if 'a' <= c <= 'f' then Some(c as int - 'a' as int + 10)
    else if 'A' <= c <= 'F' then Some(c as int - 'A' as int + 10)
    else None
  }

  /** The character that a backslash and this letter stand for (section 7 of RFC 8259). */
  function Escaped(letter: char): Option<char> {
    match letter
    case '"' => Some('"')
    case '\\' => Some('\\')
    case '/' => Some('/')
    case 'b' => Some(8 as char)
    case 'f' => Some(12 as char)
    case 'n' => Some('\n')
    case 'r' => Some('\r')
    case 't' => Some('\t')
    case _ => None
  }

  /** What the text between the quotes stands for; None for what is not such a text, and for characters
      above 255 that are written in hexadecimal. */
  function Unescape(t: string): Option<string> {
    if t == "" then Some("")
    else if t[0] != '\\' then
      var rest := Unescape(t[1..]);
      if rest.None? || t[0] == '"' || t[0] < ' ' then None else Some([t[0]] + rest.value)
    else if |t| >= 2 && Escaped(t[1]).Some? then
      var rest := Unescape(t[2..]);
      if rest.None? then None else Some([Escaped(t[1]).value] + rest.value)
    else if |t| >= 6 && t[1..4] == "u00" && HexValue(t[4]).Some? && HexValue(t[5]).Some? then
      var rest := Unescape(t[6..]);
      if rest.None? then None else Some([(16 * HexValue(t[4]).value + HexValue(t[5]).value) as char] + rest.value)
    else None
  }

  /** The three ways in which a character is written: as it is, with a letter, or in hexadecimal. */
  predicate WrittenFor(e: string, c: char) {
    || (|e| == 1 && e[0] == c && c != '\\' && c != '"' && c >= ' ')
    || (|e| == 2 && e[0] == '\\' && Escaped(e[1]) == Some(c))
    || (|e| == 6 && e[0] == '\\' && e[1..4] == "u00" && c < ' '
        && e[4] == HexDigit(c as int / 16) && e[5] == HexDigit(c as int % 16))
  }

  lemma EscapeIsWrittenFor(c: char)
    ensures WrittenFor(EscapeChar(c), c)
  {
    if |EscapeChar(c)| > 2 { assert EscapeChar(c)[1..4] == "u00"; }
  }

  /** As JSON.stringify does it: escaped are the quote, the backslash and the control characters, these
      in hexadecimal only where no letter stands for them. */
  lemma EscapesAreShort(c: char)
    ensures |EscapeChar(c)| == 1 <==> c != '"' && c != '\\' && c as int >= 0x20
    ensures |EscapeChar(c)| == 6 <==> c as int < 0x20 && forall letter: char :: Escaped(letter) != Some(c)
  {
    if c in {8 as char, 12 as char, '\n', '\r', '\t'} {
      assert Escaped('b') == Some(8 as char) && Escaped('f') == Some(12 as char) && Escaped('n') == Some('\n')
             && Escaped('r') == Some('\r') && Escaped('t') == Some('\t');
    }
  }

  lemma WrittenStandsFor(e: string, c: char, rest: string)
    requires WrittenFor(e, c) && Unescape(rest).Some?
    ensures Unescape(e + rest) == Some([c] + Unescape(rest).value)
  {
    var t := e + rest;
    assert t[|e|..] == rest;
    if |e| == 6 {
      assert t[1..4] == e[1..4] && t[1] == e[1..4][0];
    }
  }

  /** An escaped string stands for the string it was made of. */
  lemma {:induction false} EscapedStandsFor(s: string)
    ensures Unescape(Escape(s)) == Some(s)
  {
    if s != "" {
      EscapedStandsFor(s[1..]);
      EscapeIsWrittenFor(s[0]);
      WrittenStandsFor(EscapeChar(s[0]), s[0], Escape(s[1..]));
      assert [s[0]] + s[1..] == s;
    }
  }

  /** Inside an escaped string every quote follows a backslash. */
  lemma {:induction false} QuotesAreEscaped(s: string, j: nat)
    requires j < |Escape(s)| && Escape(s)[j] == '"'
    ensures j > 0 && Escape(s)[j - 1] == '\\'
  {
    var n := |EscapeChar(s[0])|;
    if j >= n { QuotesAreEscaped(s[1..], j - n); }
  }

  lemma {:induction false} NoBackslashNoEscape(s: string)
    requires '\\' !in Escape(s)
    ensures Escape(s) == s
  {
    if s != "" {
      assert EscapeChar(s[0])[0] in Escape(s);
      assert EscapeChar(s[0]) == [s[0]];
      forall c | c in Escape(s[1..]) ensures c in Escape(s) {}
      NoBackslashNoEscape(s[1..]);
      assert s == [s[0]] + s[1..];
    }
  }

  // ---------------------------------------------------------------- tokens and text

  function TokenText(t: Token): (r: string)
    ensures |r| > 0
  {
    match t
    case Quoted(s) => Quote(s)
    case TrueWord => "true"
    case FalseWord => "false"
    case NullWord => "null"
    case Number(n) => IntText(n)
    case Mark(c) => [c]
  }

  function Text(ts: seq<Token>): string {
    if ts == [] then "" else TokenText(ts[0]) + Text(ts[1..])
  }

  function Tokens(j: Json): seq<Token> {
    match j
    case Null => [NullWord]
    case Bool(b) => [if b then TrueWord else FalseWord]
    case Num(n) => [Number(n)]
    case Str(s) => [Quoted(s)]
    case Arr(items) => [Mark('[')] + ItemTokens(items) + [Mark(']')]
    case Obj(members) => [Mark('{')] + MemberTokens(members) + [Mark('}')]
  }

  function ItemTokens(items: Items): seq<Token> {
    match items
    case NoItem => []
    case Item(head, tail) => Tokens(head) + (if tail.NoItem? then [] else [Mark(',')] + ItemTokens(tail))
  }

  function MemberTokens(members: Members): seq<Token> {
    match members
    case NoMember => []
    case Member(key, value, rest) =>
      [Quoted(key), Mark(':')] + (Tokens(value) + (if rest.NoMember? then [] else [Mark(',')] + MemberTokens(rest)))
  }

  /** JSON.stringify */
  function Print(j: Json): string { Text(Tokens(j)) }

  // ---------------------------------------------------------------- well-formed token sequences

  /** A string is followed by a mark, if by anything; by a colon only when it is a plain key. */
  ghost predicate Adjacent(ts: seq<Token>) {
    && (forall n | 0 <= n < |ts| :: ts[n].Mark? ==> IsMark(ts[n].c))
    && (forall n | 0 <= n < |ts| - 1 && ts[n].Quoted? ::
          ts[n + 1].Mark? && (ts[n + 1].c == ':' ==> Plain(ts[n].s)))
  }

  predicate KeysPlain(j: Json) {
    match j
    case Arr(items) => ItemKeysPlain(items)
    case Obj(members) => MemberKeysPlain(members)
    case _ => true
  }

  predicate ItemKeysPlain(items: Items) {
    items.Item? ==> KeysPlain(items.head) && ItemKeysPlain(items.tail)
  }

  predicate MemberKeysPlain(members: Members) {
    members.Member? ==> Plain(members.key) && KeysPlain(members.value) && MemberKeysPlain(members.rest)
  }

  lemma AdjacentConcat(a: seq<Token>, b: seq<Token>)
    requires Adjacent(a) && Adjacent(b)
    requires a != [] && b != [] && a[|a| - 1].Quoted? ==> b[0].Mark? && b[0].c != ':'
    ensures Adjacent(a + b)
  {
  }

  lemma {:induction false} TokensAreAdjacent(j: Json)
    requires KeysPlain(j)
    ensures Adjacent(Tokens(j)) && Tokens(j) != []
    decreases j
  {
    match j
    case Arr(items) =>
      ItemsAreAdjacent(items);
      AdjacentConcat([Mark('[')], ItemTokens(items));
      AdjacentConcat([Mark('[')] + ItemTokens(items), [Mark(']')]);
    case Obj(members) =>
      MembersAreAdjacent(members);
      AdjacentConcat([Mark('{')], MemberTokens(members));
      AdjacentConcat([Mark('{')] + MemberTokens(members), [Mark('}')]);
    case _ =>
  }

  lemma {:induction false} ItemsAreAdjacent(items: Items)
    requires ItemKeysPlain(items)
    ensures Adjacent(ItemTokens(items))
    decreases items
  {
    if items.Item? {
      TokensAreAdjacent(items.head);
      if items.tail.Item? {
        ItemsAreAdjacent(items.tail);
        AdjacentConcat([Mark(',')], ItemTokens(items.tail));
        AdjacentConcat(Tokens(items.head), [Mark(',')] + ItemTokens(items.tail));
      }
    }
  }

  lemma {:induction false} MembersAreAdjacent(members: Members)
    requires MemberKeysPlain(members)
    ensures Adjacent(MemberTokens(members))
    decreases members
  {
    if members.Member? {
      var value := Tokens(members.value);
      var head := [Quoted(members.key), Mark(':')];
      TokensAreAdjacent(members.value);
      if members.rest.Member? {
        var more := [Mark(',')] + MemberTokens(members.rest);
        MembersAreAdjacent(members.rest);
        AdjacentConcat([Mark(',')], MemberTokens(members.rest));
        AdjacentConcat(value, more);
        AdjacentConcat(head, value + more);
      } else {
        AdjacentConcat(head, value);
        assert value + [] == value;
      }
    }
  }

  // ---------------------------------------------------------------- what a filter asks

  /** What the filter text says about the value after the key. */
  datatype Probe = IsTrue | IsString | Equals(word: string)

  function ProbeText(p: Probe): string {
    match p
    case IsTrue => "true"
    case IsString => "\""
    case Equals(word) => "\"" + word + "\""
  }

  /** The text that is searched for: a key, a colon and the beginning of a value. */
  function Pattern(key: string, p: Probe): string { "\"" + key + "\":" + ProbeText(p) }

  predicate Occurs(pattern: string, text: string) {
    exists i | 0 <= i <= |text| :: pattern <= text[i..]
  }

  predicate Passes(p: Probe, t: Token) {
    match p
    case IsTrue => t == TrueWord
    case IsString => t.Quoted?
    case Equals(word) => t == Quoted(word)
  }

  /** What the filter is meant to find: a member, at any depth, with this key and such a value. */
  predicate HasMember(j: Json, key: string, p: Probe) {
    match j
    case Arr(items) => ItemsHaveMember(items, key, p)
    case Obj(members) => MembersHaveMember(members, key, p)
    case _ => false
  }

  predicate ItemsHaveMember(items: Items, key: string, p: Probe) {
    items.Item? && (HasMember(items.head, key, p) || ItemsHaveMember(items.tail, key, p))
  }

  predicate ValuePasses(p: Probe, value: Json) {
    match p
    case IsTrue => value == Bool(true)
    case IsString => value.Str?
    case Equals(word) => value == Str(word)
  }

  predicate MembersHaveMember(members: Members, key: string, p: Probe) {
    members.Member? &&
    (|| (members.key == key && ValuePasses(p, members.value))
     || HasMember(members.value, key, p)
     || MembersHaveMember(members.rest, key, p))
  }

  // ---------------------------------------------------------------- tokens against trees

  predicate At(ts: seq<Token>, n: nat, key: string, p: Probe) {
    n + 2 < |ts| && ts[n] == Quoted(key) && ts[n + 1] == Mark(':') && Passes(p, ts[n + 2])
  }

  predicate Found(ts: seq<Token>, key: string, p: Probe) {
    exists n | 0 <= n < |ts| :: At(ts, n, key, p)
  }

  lemma FoundConcat(a: seq<Token>, b: seq<Token>, key: string, p: Probe)
    requires a != [] ==> a[|a| - 1] != Mark(':')
    requires b != [] ==> b[0] != Mark(':')
    ensures Found(a + b, key, p) <==> Found(a, key, p) || Found(b, key, p)
  {
    if Found(a, key, p) {
      var n :| 0 <= n < |a| && At(a, n, key, p);
      assert At(a + b, n, key, p);
    }
    if Found(b, key, p) {
      var n :| 0 <= n < |b| && At(b, n, key, p);
      assert (a + b)[n + |a|..] == b[n..];
      assert At(a + b, n + |a|, key, p);
    }
    if Found(a + b, key, p) {
      var n :| 0 <= n < |a + b| && At(a + b, n, key, p);
      if n + 2 < |a| {
        assert At(a, n, key, p);
      } else if n >= |a| {
        assert At(b, n - |a|, key, p);
      }
    }
  }

  lemma TokenEnds(j: Json)
    ensures Tokens(j) != []
    ensures Tokens(j)[0] != Mark(':') && Tokens(j)[|Tokens(j)| - 1] != Mark(':')
    ensures forall p :: Passes(p, Tokens(j)[0]) <==> ValuePasses(p, j)
  {
  }

  lemma {:induction false} TokensFind(j: Json, key: string, p: Probe)
    ensures Found(Tokens(j), key, p) <==> HasMember(j, key, p)
    decreases j
  {
    match j
    case Arr(items) =>
      ItemsFind(items, key, p);
      FoundConcat([Mark('[')], ItemTokens(items), key, p);
      FoundConcat([Mark('[')] + ItemTokens(items), [Mark(']')], key, p);
    case Obj(members) =>
      MembersFind(members, key, p);
      FoundConcat([Mark('{')], MemberTokens(members), key, p);
      FoundConcat([Mark('{')] + MemberTokens(members), [Mark('}')], key, p);
    case _ =>
  }

  lemma {:induction false} ItemsFind(items: Items, key: string, p: Probe)
    ensures Found(ItemTokens(items), key, p) <==> ItemsHaveMember(items, key, p)
    ensures ItemTokens(items) != [] ==>
              ItemTokens(items)[0] != Mark(':') && ItemTokens(items)[|ItemTokens(items)| - 1] != Mark(':')
    decreases items
  {
    if items.Item? {
      TokensFind(items.head, key, p);
      TokenEnds(items.head);
      if items.tail.Item? {
        ItemsFind(items.tail, key, p);
        FoundConcat([Mark(',')], ItemTokens(items.tail), key, p);
        FoundConcat(Tokens(items.head), [Mark(',')] + ItemTokens(items.tail), key, p);
      } else {
        assert Tokens(items.head) + [] == Tokens(items.head);
      }
    }
  }

  lemma FoundAfterKey(k: string, value: Json, more: seq<Token>, key: string, p: Probe)
    requires more != [] ==> more[0] != Mark(':')
    ensures Found([Quoted(k), Mark(':')] + (Tokens(value) + more), key, p) <==>
              (k == key && ValuePasses(p, value)) || Found(Tokens(value), key, p) || Found(more, key, p)
  {
    TokenEnds(value);
    var tail := Tokens(value) + more;
    var ts := [Quoted(k), Mark(':')] + tail;
    FoundConcat(Tokens(value), more, key, p);
    assert ts[2] == Tokens(value)[0];
    if Found(ts, key, p) {
      var n :| 0 <= n < |ts| && At(ts, n, key, p);
      if n >= 2 { assert At(tail, n - 2, key, p); }
    }
    if Found(tail, key, p) {
      var n :| 0 <= n < |tail| && At(tail, n, key, p);
      assert At(ts, n + 2, key, p);
    }
    if k == key && ValuePasses(p, value) { assert At(ts, 0, key, p); }
  }

  lemma {:induction false} MembersFind(members: Members, key: string, p: Probe)
    ensures Found(MemberTokens(members), key, p) <==> MembersHaveMember(members, key, p)
    ensures MemberTokens(members) != [] ==>
              MemberTokens(members)[0] != Mark(':') && MemberTokens(members)[|MemberTokens(members)| - 1] != Mark(':')
    decreases members
  {
    if members.Member? {
      TokensFind(members.value, key, p);
      TokenEnds(members.value);
      if members.rest.Member? {
        MembersFind(members.rest, key, p);
        FoundConcat([Mark(',')], MemberTokens(members.rest), key, p);
        FoundAfterKey(members.key, members.value, [Mark(',')] + MemberTokens(members.rest), key, p);
      } else {
        FoundAfterKey(members.key, members.value, [], key, p);
      }
    }
  }

  // ---------------------------------------------------------------- text against tokens

  lemma Associative(a: string, b: string, c: string)
    ensures a + (b + c) == (a + b) + c
  {
  }

  lemma HeadAndTail<T>(a: seq<T>, b: seq<T>)
    requires a != []
    ensures (a + b)[0] == a[0] && (a + b)[1..] == a[1..] + b
  {
  }

  lemma {:induction false} TextConcat(a: seq<Token>, b: seq<Token>)
    ensures Text(a + b) == Text(a) + Text(b)
  {
    if a == [] {
      assert a + b == b;
    } else {
      TextConcat(a[1..], b);
      HeadAndTail(a, b);
      Associative(TokenText(a[0]), Text(a[1..]), Text(b));
    }
  }

  /** A key as a filter writes it. */
  predicate FilterKey(key: string) {
    key != "" && Plain(key) && !IsMark(key[0])
  }

  function KeyText(key: string): string { "\"" + key + "\":" }

  /** A character that does not follow a backslash is not a quote. */
  lemma UnescapedIsNoQuote(s: string, j: nat)
    requires 0 < j < |Escape(s)| && Escape(s)[j - 1] != '\\'
    ensures Escape(s)[j] != '"'
  {
    if Escape(s)[j] == '"' { QuotesAreEscaped(s, j); }
  }

  lemma NoLeadingQuote(s: string)
    ensures Escape(s) != "" ==> Escape(s)[0] != '"'
  {
    if Escape(s) != "" && Escape(s)[0] == '"' { QuotesAreEscaped(s, 0); }
  }

  lemma PrefixAt(pattern: string, text: string, i: nat, j: nat)
    requires i <= |text| && pattern <= text[i..] && j < |pattern|
    ensures i + j < |text| && text[i + j] == pattern[j]
  {
    assert text[i..][j] == text[i + j];
  }

  /** A quote, a plain word and a quote at the start of a quoted string: the string is that word. */
  lemma QuotedWord(s: string, rest: string, word: string)
    requires Plain(word) && "\"" + word + "\"" <= Quote(s) + rest
    ensures s == word
  {
    var e, text := Escape(s), Quote(s) + rest;
    var pattern := "\"" + word + "\"";
    assert text[0..] == text;
    forall j | 0 <= j < |word| ensures text[j + 1] == word[j] { PrefixAt(pattern, text, 0, j + 1); }
    PrefixAt(pattern, text, 0, |word| + 1);
    forall j | 0 <= j < |e| ensures text[j + 1] == e[j] {}
    assert text[|e| + 1] == '"';
    assert |e| >= |word|;
    NoLeadingQuote(s);
    if 0 < |word| < |e| {
      assert e[|word| - 1] == text[|word|] == word[|word| - 1];
      UnescapedIsNoQuote(s, |word|);
    }
    assert |e| == |word|;
    forall j | 0 <= j < |e| ensures e[j] == word[j] { assert text[j + 1] == e[j]; }
    assert e == word;
    NoBackslashNoEscape(s);
  }

  lemma MarkStarts(ts: seq<Token>)
    requires ts != [] && Adjacent(ts)
    ensures Text(ts) != "" && (Text(ts)[0] == ':' <==> ts[0] == Mark(':'))
    ensures ts[0].Mark? ==> IsMark(Text(ts)[0])
  {
    if ts[0].Number? { IntTextStart(ts[0].n); }
  }

  lemma IntTextStart(n: int)
    ensures IntText(n)[0] == '-' || '0' <= IntText(n)[0] <= '9'
  {
    if n >= 0 { DecimalStandsFor(n); }
  }

  lemma DropPast(a: string, b: string, i: nat)
    requires |a| <= i <= |a + b|
    ensures (a + b)[i..] == b[i - |a|..]
  {
  }

  lemma DropDrop<T>(s: seq<T>, i: nat, j: nat)
    requires i + j <= |s|
    ensures s[i..][j..] == s[i + j..]
  {
  }

  /** Where the key text occurs, a key token with that key stands, and the colon after it. */
  lemma {:induction false} KeyAt(ts: seq<Token>, i: nat, key: string) returns (n: nat)
    requires Adjacent(ts) && FilterKey(key)
    requires i <= |Text(ts)| && KeyText(key) <= Text(ts)[i..]
    ensures n + 1 < |ts| && ts[n] == Quoted(key) && ts[n + 1] == Mark(':')
    ensures Text(ts[n + 2..]) == Text(ts)[i + |KeyText(key)|..]
    decreases |ts|
  {
    var first, rest := TokenText(ts[0]), Text(ts[1..]);
    assert Text(ts) == first + rest;
    assert Adjacent(ts[1..]);
    if i >= |first| {
      DropPast(first, rest, i);
      n := KeyAt(ts[1..], i - |first|, key);
      DropDrop(ts, 1, n + 2);
      DropPast(first, rest, i + |KeyText(key)|);
      n := n + 1;
    } else {
      KeyInFirst(ts, i, key);
      n := 0;
    }
  }

  /** A key text at the beginning of a quoted string and what follows it: the string is the key. */
  lemma QuotedKey(s: string, rest: string, key: string)
    requires Plain(key) && KeyText(key) <= Quote(s) + rest
    ensures s == key && rest != "" && rest[0] == ':'
  {
    var text, word := Quote(s) + rest, "\"" + key + "\"";
    assert KeyText(key)[..|word|] == word;
    assert word <= text;
    QuotedWord(s, rest, key);
    PlainIsItself(key);
    assert |Quote(s)| == |word| && text[|word|] == KeyText(key)[|word|] == ':';
  }

  lemma MemberText(ts: seq<Token>, key: string)
    requires |ts| > 1 && ts[0] == Quoted(key) && ts[1] == Mark(':') && Plain(key)
    ensures Text(ts) == KeyText(key) + Text(ts[2..])
  {
    PlainIsItself(key);
    var colon, after := ts[1..], ts[2..];
    assert colon[0] == ts[1] && colon[1..] == after;
    assert Text(ts) == Quote(key) + Text(colon) && Text(colon) == [':'] + Text(after);
    Associative(Quote(key), [':'], Text(after));
    assert KeyText(key) == Quote(key) + [':'];
  }

  /** A key text at the very beginning is that of the first token. */
  lemma KeyStartsFirst(ts: seq<Token>, key: string)
    requires Adjacent(ts) && FilterKey(key) && ts != [] && ts[0].Quoted? && KeyText(key) <= Text(ts)
    ensures 1 < |ts| && ts[0] == Quoted(key) && ts[1] == Mark(':')
    ensures Text(ts[2..]) == Text(ts)[|KeyText(key)|..]
  {
    QuotedKey(ts[0].s, Text(ts[1..]), key);
    MarkStarts(ts[1..]);
    MemberText(ts, key);
  }

  lemma OnlyStringsHaveQuotes(t: Token, i: nat)
    requires (t.Mark? ==> IsMark(t.c)) && i < |TokenText(t)| && TokenText(t)[i] == '"'
    ensures t.Quoted?
  {
    if t.Number? { NumberHasNoQuote(t.n, i); }
  }

  lemma NumberHasNoQuote(n: int, i: nat)
    requires i < |IntText(n)|
    ensures IntText(n)[i] != '"'
  {
    DecimalStandsFor(if n < 0 then -n else n);
  }

  lemma FirstIsQuoted(ts: seq<Token>, i: nat, key: string)
    requires Adjacent(ts) && ts != [] && i < |TokenText(ts[0])| && KeyText(key) <= Text(ts)[i..]
    ensures ts[0].Quoted?
  {
    PrefixAt(KeyText(key), Text(ts), i, 0);
    assert TokenText(ts[0])[i] == Text(ts)[i] == KeyText(key)[0];
    OnlyStringsHaveQuotes(ts[0], i);
  }

  lemma KeyInFirst(ts: seq<Token>, i: nat, key: string)
    requires Adjacent(ts) && FilterKey(key) && ts != []
    requires i < |TokenText(ts[0])| && KeyText(key) <= Text(ts)[i..]
    ensures 1 < |ts| && ts[0] == Quoted(key) && ts[1] == Mark(':')
    ensures Text(ts[2..]) == Text(ts)[i + |KeyText(key)|..]
  {
    var text, pattern, first := Text(ts), KeyText(key), TokenText(ts[0]);
    FirstIsQuoted(ts, i, key);
    if i == 0 {
      assert text[0..] == text;
      KeyStartsFirst(ts, key);
    } else if i == |first| - 1 {
      var rest := Text(ts[1..]);
      if |ts| > 1 { MarkStarts(ts[1..]); }
      assert rest != "" ==> IsMark(rest[0]);
      PrefixAt(pattern, text, i, 1);
      assert false;
    } else {
      KeyNotInBody(ts, i, key);
    }
  }

  /** Key text that starts inside a quoted string ends at the closing quote of that string. */
  lemma SecondQuoteCloses(s: string, rest: string, i: nat, key: string)
    requires FilterKey(key) && 0 < i <= |Escape(s)| && KeyText(key) <= (Quote(s) + rest)[i..]
    ensures '"' in Escape(s) && rest != "" && rest[0] == ':'
  {
    var text, pattern, e := Quote(s) + rest, KeyText(key), Escape(s);
    var close, second, before: nat := |e| + 1, i + 1 + |key|, i + |key|;
    forall m | i < m < second ensures text[m] == key[m - i - 1] != '"' { PrefixAt(pattern, text, i, m - i); }
    PrefixAt(pattern, text, i, 0);
    PrefixAt(pattern, text, i, 1 + |key|);
    PrefixAt(pattern, text, i, 2 + |key|);
    assert e[i - 1] == text[i] == '"';
    assert text[close] == '"' && text[second] == '"';
    assert second <= close;
    if second < close {
      assert e[before] == text[second] && e[before - 1] == text[before] == key[|key| - 1];
      UnescapedIsNoQuote(s, before);
    }
  }

  /** The key text cannot start inside a string: its second quote would be the closing one, and the
      string, holding a quote, would be a key. */
  lemma KeyNotInBody(ts: seq<Token>, i: nat, key: string)
    requires Adjacent(ts) && FilterKey(key) && ts != [] && ts[0].Quoted?
    requires 0 < i < |TokenText(ts[0])| - 1
    ensures !(KeyText(key) <= Text(ts)[i..])
  {
    if KeyText(key) <= Text(ts)[i..] {
      SecondQuoteCloses(ts[0].s, Text(ts[1..]), i, key);
      MarkStarts(ts[1..]);
      PlainIsItself(ts[0].s);
    }
  }

  lemma TextFrom(ts: seq<Token>, n: nat)
    requires n <= |ts|
    ensures |Text(ts[..n])| <= |Text(ts)| && Text(ts)[|Text(ts[..n])|..] == Text(ts[n..])
  {
    var before, rest := ts[..n], ts[n..];
    assert Text(ts) == Text(before) + Text(rest) by {
      assert ts == before + rest;
      TextConcat(before, rest);
    }
  }

  lemma KeyTokenText(ts: seq<Token>, n: nat, key: string) returns (i: nat)
    requires n + 1 < |ts| && ts[n] == Quoted(key) && ts[n + 1] == Mark(':') && Plain(key)
    ensures i <= |Text(ts)| && Text(ts)[i..] == KeyText(key) + Text(ts[n + 2..])
  {
    i := |Text(ts[..n])|;
    TextFrom(ts, n);
    MemberText(ts[n..], key);
    assert ts[n..][2..] == ts[n + 2..];
  }

  /** The beginning of the text after the colon tells the value apart. */
  lemma ProbeTells(ts: seq<Token>, p: Probe)
    requires Adjacent(ts) && (p.Equals? ==> Plain(p.word))
    ensures ProbeText(p) <= Text(ts) <==> ts != [] && Passes(p, ts[0])
  {
    if ts != [] {
      var first, rest := TokenText(ts[0]), Text(ts[1..]);
      assert Text(ts) == first + rest && Text(ts)[0] == first[0];
      if ts[0].Number? { IntTextStart(ts[0].n); }
      if ProbeText(p) <= Text(ts) {
        assert ProbeText(p)[0] == Text(ts)[0];
        if p.Equals? { QuotedWord(ts[0].s, rest, p.word); }
      }
      if p.Equals? { PlainIsItself(p.word); }
    }
  }

  lemma SplitPattern(text: string, i: nat, key: string, p: Probe)
    requires i <= |text| && Pattern(key, p) <= text[i..]
    ensures KeyText(key) <= text[i..] && ProbeText(p) <= text[i + |KeyText(key)|..]
  {
    var k := KeyText(key);
    assert Pattern(key, p) == k + ProbeText(p);
    assert k <= text[i..];
    SplitPrefix(k, ProbeText(p), text[i..]);
    assert text[i..][|k|..] == text[i + |k|..];
  }

  lemma OccurrenceIsFound(ts: seq<Token>, key: string, p: Probe)
    requires Adjacent(ts) && FilterKey(key) && (p.Equals? ==> Plain(p.word))
    requires Occurs(Pattern(key, p), Text(ts))
    ensures Found(ts, key, p)
  {
    var i :| 0 <= i <= |Text(ts)| && Pattern(key, p) <= Text(ts)[i..];
    SplitPattern(Text(ts), i, key, p);
    var n := KeyAt(ts, i, key);
    ProbeTells(ts[n + 2..], p);
    assert At(ts, n, key, p);
  }

  lemma FoundOccurs(ts: seq<Token>, key: string, p: Probe)
    requires Adjacent(ts) && FilterKey(key) && (p.Equals? ==> Plain(p.word)) && Found(ts, key, p)
    ensures Occurs(Pattern(key, p), Text(ts))
  {
    var n :| 0 <= n < |ts| && At(ts, n, key, p);
    var i := KeyTokenText(ts, n, key);
    ProbeTells(ts[n + 2..], p);
    SplitPrefix(KeyText(key), ProbeText(p), Text(ts)[i..]);
    assert Pattern(key, p) == KeyText(key) + ProbeText(p);
  }

  /** A substring filter of this form is exact on printed JSON whose keys are plain: it finds exactly
      the texts of which some member, at whatever depth, has the key and such a value, whatever
      text the strings contain. */
  lemma FilterIsExact(j: Json, key: string, p: Probe)
    requires KeysPlain(j) && FilterKey(key) && (p.Equals? ==> Plain(p.word))
    ensures Occurs(Pattern(key, p), Print(j)) <==> HasMember(j, key, p)
  {
    TokensAreAdjacent(j);
    TokensFind(j, key, p);
    if Occurs(Pattern(key, p), Print(j)) { OccurrenceIsFound(Tokens(j), key, p); }
    if Found(Tokens(j), key, p) { FoundOccurs(Tokens(j), key, p); }
  }

  lemma SplitPrefix(a: string, b: string, text: string)
    requires a <= text
    ensures a + b <= text <==> b <= text[|a|..]
  {
    assert text == a + text[|a|..];
  }
}
