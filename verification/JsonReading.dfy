/** Printed JSON text is read back as the tree it was printed from: unescaping undoes escaping, the
    text falls into tokens in one way, and the tokens into values in one way. */
module JsonReading {
  import opened Common
  import opened JsonText

  // ---------------------------------------------------------------- strings

  lemma CharAt(a: string, b: string, i: nat)
    requires i < |a| + |b|
    ensures (a + b)[i] == if i < |a| then a[i] else b[i - |a|]
  {
  }

  lemma SameTail(w: string, x: string, y: string)
    requires w + x == w + y
    ensures x == y
  {
    assert (w + x)[|w|..] == x && (w + y)[|w|..] == y;
  }

  /** No escape of a character begins with that of another one. */
  lemma EscapesDiffer(c: char, d: char, x: string, y: string)
    requires EscapeChar(c) + x == EscapeChar(d) + y
    ensures c == d && x == y
  {
    var e, f := EscapeChar(c), EscapeChar(d);
    forall i: nat | i < |e| && i < |f| ensures e[i] == f[i] {
      CharAt(e, x, i);
      CharAt(f, y, i);
    }
    assert e[0] == f[0];
    if |e| > 1 && |f| > 1 { assert e[1] == f[1]; }
    if |e| == 6 && |f| == 6 { assert e[4] == f[4] && e[5] == f[5]; }
    SameTail(e, x, y);
  }

  /** A quote comes first exactly when the escaped string is over. */
  lemma {:induction false} EscapedStarts(s: string, x: string)
    ensures var text := Escape(s) + "\"" + x;
            && (text[0] == '"' <==> s == "")
            && text == if s == "" then "\"" + x else EscapeChar(s[0]) + (Escape(s[1..]) + "\"" + x)
  {
    if s != "" { assert Escape(s)[0] == EscapeChar(s[0])[0]; }
  }

  /** An escaped string ends at the first quote that is not part of it. */
  lemma {:induction false} StringsSplit(s: string, t: string, x: string, y: string)
    requires Escape(s) + "\"" + x == Escape(t) + "\"" + y
    ensures s == t && x == y
    decreases |s|
  {
    EscapedStarts(s, x);
    EscapedStarts(t, y);
    if s == "" {
      SameTail("\"", x, y);
    } else {
      EscapesDiffer(s[0], t[0], Escape(s[1..]) + "\"" + x, Escape(t[1..]) + "\"" + y);
      StringsSplit(s[1..], t[1..], x, y);
      assert s == [s[0]] + s[1..] && t == [t[0]] + t[1..];
    }
  }

  // ---------------------------------------------------------------- numbers

  predicate Digit(c: char) { '0' <= c <= '9' }

  predicate NoDigitFirst(x: string) { x != "" ==> !Digit(x[0]) }

  lemma DigitsSplit(d: string, e: string, x: string, y: string)
    requires d + x == e + y && NoDigitFirst(x) && NoDigitFirst(y)
    requires forall i | 0 <= i < |d| :: Digit(d[i])
    requires forall i | 0 <= i < |e| :: Digit(e[i])
    ensures d == e && x == y
  {
    assert |d| + |x| == |d + x| == |e| + |y|;
    NoLonger(d, e, x, y);
    NoLonger(e, d, y, x);
    assert d == (d + x)[..|d|] == e;
    SameTail(d, x, y);
  }

  lemma NoLonger(d: string, e: string, x: string, y: string)
    requires d + x == e + y && NoDigitFirst(x) && |d| + |x| == |e| + |y|
    requires forall i | 0 <= i < |e| :: Digit(e[i])
    ensures |e| <= |d|
  {
    if |d| < |e| {
      CharAt(d, x, |d|);
    }
  }

  lemma NaturalsSplit(n: nat, m: nat, x: string, y: string)
    requires Decimal(n) + x == Decimal(m) + y && NoDigitFirst(x) && NoDigitFirst(y)
    ensures n == m && x == y
  {
    DecimalStandsFor(n);
    DecimalStandsFor(m);
    DigitsSplit(Decimal(n), Decimal(m), x, y);
  }

  lemma SignShows(n: int)
    ensures IntText(n)[0] == '-' <==> n < 0
  {
    if n >= 0 { DecimalStandsFor(n); }
  }

  lemma NumbersSplit(n: int, m: int, x: string, y: string)
    requires IntText(n) + x == IntText(m) + y && NoDigitFirst(x) && NoDigitFirst(y)
    ensures n == m && x == y
  {
    HeadAndTail(IntText(n), x);
    HeadAndTail(IntText(m), y);
    SignShows(n);
    SignShows(m);
    if n < 0 {
      assert IntText(n)[1..] == Decimal(-n) && IntText(m)[1..] == Decimal(-m);
      NaturalsSplit(-n, -m, x, y);
    } else {
      NaturalsSplit(n, m, x, y);
    }
  }

  // ---------------------------------------------------------------- text into tokens

  /** Every token but a mark is followed by a mark, if by anything. */
  ghost predicate Separated(ts: seq<Token>) {
    && (forall n | 0 <= n < |ts| && ts[n].Mark? :: IsMark(ts[n].c))
    && (forall n | 0 <= n < |ts| - 1 && !ts[n].Mark? :: ts[n + 1].Mark?)
  }

  /** What a text may go on with after a token: nothing, or a mark. */
  predicate GoesOn(x: string) { x != "" ==> IsMark(x[0]) }

  lemma TokenStarts(t: Token)
    requires t.Mark? ==> IsMark(t.c)
    ensures var c := TokenText(t)[0];
            match t
            case Quoted(_) => c == '"'
            case TrueWord => c == 't'
            case FalseWord => c == 'f'
            case NullWord => c == 'n'
            case Number(_) => c == '-' || Digit(c)
            case Mark(m) => c == m
  {
    if t.Number? { IntTextStart(t.n); }
  }

  lemma QuotesSplit(s: string, t: string, x: string, y: string)
    requires Quote(s) + x == Quote(t) + y
    ensures s == t && x == y
  {
    assert (Quote(s) + x)[1..] == Escape(s) + "\"" + x && (Quote(t) + y)[1..] == Escape(t) + "\"" + y;
    StringsSplit(s, t, x, y);
  }

  lemma SameStart(t: Token, u: Token)
    requires t.Mark? ==> IsMark(t.c)
    requires u.Mark? ==> IsMark(u.c)
    requires TokenText(t)[0] == TokenText(u)[0]
    ensures t.Quoted? ==> u.Quoted?
    ensures t.Number? ==> u.Number?
    ensures !t.Quoted? && !t.Number? ==> t == u
  {
    TokenStarts(t);
    TokenStarts(u);
  }

  lemma TokensSplit(t: Token, u: Token, x: string, y: string)
    requires TokenText(t) + x == TokenText(u) + y
    requires t.Mark? ==> IsMark(t.c)
    requires u.Mark? ==> IsMark(u.c)
    requires !t.Mark? ==> GoesOn(x)
    requires !u.Mark? ==> GoesOn(y)
    ensures t == u && x == y
  {
    HeadAndTail(TokenText(t), x);
    HeadAndTail(TokenText(u), y);
    SameStart(t, u);
    if t.Quoted? {
      QuotesSplit(t.s, u.s, x, y);
    } else if t.Number? {
      NumbersSplit(t.n, u.n, x, y);
    } else {
      SameTail(TokenText(t), x, y);
    }
  }

  lemma TextGoesOn(ts: seq<Token>)
    requires Separated(ts) && (ts != [] ==> ts[0].Mark?)
    ensures GoesOn(Text(ts))
  {
  }

  lemma {:induction false} TextTellsTokens(ts: seq<Token>, us: seq<Token>)
    requires Separated(ts) && Separated(us) && Text(ts) == Text(us)
    ensures ts == us
  {
    if ts != [] && us != [] {
      if !ts[0].Mark? { TextGoesOn(ts[1..]); }
      if !us[0].Mark? { TextGoesOn(us[1..]); }
      TokensSplit(ts[0], us[0], Text(ts[1..]), Text(us[1..]));
      TextTellsTokens(ts[1..], us[1..]);
      assert ts == [ts[0]] + ts[1..] && us == [us[0]] + us[1..];
    }
  }

  lemma SeparatedConcat(a: seq<Token>, b: seq<Token>)
    requires Separated(a) && Separated(b)
    requires a != [] && b != [] && !a[|a| - 1].Mark? ==> b[0].Mark?
    ensures Separated(a + b)
  {
  }

  lemma {:induction false} ValuesAreSeparated(j: Json)
    ensures Separated(Tokens(j)) && Tokens(j) != []
    decreases j
  {
    match j
    case Arr(items) =>
      ItemsAreSeparated(items);
      SeparatedConcat([Mark('[')], ItemTokens(items));
      SeparatedConcat([Mark('[')] + ItemTokens(items), [Mark(']')]);
    case Obj(members) =>
      MembersAreSeparated(members);
      SeparatedConcat([Mark('{')], MemberTokens(members));
      SeparatedConcat([Mark('{')] + MemberTokens(members), [Mark('}')]);
    case _ =>
  }

  lemma {:induction false} ItemsAreSeparated(items: Items)
    ensures Separated(ItemTokens(items))
    decreases items
  {
    if items.Item? {
      ValuesAreSeparated(items.head);
      if items.tail.Item? {
        ItemsAreSeparated(items.tail);
        SeparatedConcat([Mark(',')], ItemTokens(items.tail));
        SeparatedConcat(Tokens(items.head), [Mark(',')] + ItemTokens(items.tail));
      }
    }
  }

  lemma {:induction false} MembersAreSeparated(members: Members)
    ensures Separated(MemberTokens(members))
    decreases members
  {
    if members.Member? {
      var value := Tokens(members.value);
      var head := [Quoted(members.key), Mark(':')];
      ValuesAreSeparated(members.value);
      if members.rest.Member? {
        var more := [Mark(',')] + MemberTokens(members.rest);
        MembersAreSeparated(members.rest);
        SeparatedConcat([Mark(',')], MemberTokens(members.rest));
        SeparatedConcat(value, more);
        SeparatedConcat(head, value + more);
      } else {
        SeparatedConcat(head, value);
        assert value + [] == value;
      }
    }
  }

  // ---------------------------------------------------------------- tokens into values

  lemma Bracketed<T>(l: T, body: seq<T>, r: T, rest: seq<T>)
    ensures var all := [l] + body + [r] + rest; all[0] == l && all[1..] == body + ([r] + rest)
  {
  }

  lemma ValueStarts(j: Json, rest: seq<Token>)
    ensures var t := (Tokens(j) + rest)[0];
            match j
            case Null => t == NullWord
            case Bool(b) => t == if b then TrueWord else FalseWord
            case Num(n) => t == Number(n)
            case Str(s) => t == Quoted(s)
            case Arr(_) => t == Mark('[')
            case Obj(_) => t == Mark('{')
  {
  }

  lemma {:induction false} ValuesSplit(j: Json, k: Json, a: seq<Token>, b: seq<Token>)
    requires Tokens(j) + a == Tokens(k) + b
    ensures j == k && a == b
    decreases j
  {
    ValueStarts(j, a);
    ValueStarts(k, b);
    match j
    case Arr(items) =>
      Bracketed(Mark('['), ItemTokens(items), Mark(']'), a);
      Bracketed(Mark('['), ItemTokens(k.items), Mark(']'), b);
      ItemsSplit(items, k.items, a, b);
    case Obj(members) =>
      Bracketed(Mark('{'), MemberTokens(members), Mark('}'), a);
      Bracketed(Mark('{'), MemberTokens(k.members), Mark('}'), b);
      MembersSplit(members, k.members, a, b);
    case _ =>
      assert (Tokens(j) + a)[1..] == a && (Tokens(k) + b)[1..] == b;
  }

  /** What follows the first item of an array, and the array. */
  function AfterItem(tail: Items, rest: seq<Token>): seq<Token> {
    if tail.NoItem? then [Mark(']')] + rest else [Mark(',')] + (ItemTokens(tail) + ([Mark(']')] + rest))
  }

  lemma FirstItem(items: Items, rest: seq<Token>)
    requires items.Item?
    ensures ItemTokens(items) + ([Mark(']')] + rest) == Tokens(items.head) + AfterItem(items.tail, rest)
  {
  }

  lemma {:induction false} ItemsSplit(xs: Items, ys: Items, a: seq<Token>, b: seq<Token>)
    requires ItemTokens(xs) + ([Mark(']')] + a) == ItemTokens(ys) + ([Mark(']')] + b)
    ensures xs == ys && a == b
    decreases xs
  {
    var ts, us := ItemTokens(xs) + ([Mark(']')] + a), ItemTokens(ys) + ([Mark(']')] + b);
    if xs.Item? { FirstItem(xs, a); ValueStarts(xs.head, AfterItem(xs.tail, a)); }
    if ys.Item? { FirstItem(ys, b); ValueStarts(ys.head, AfterItem(ys.tail, b)); }
    if xs.NoItem? || ys.NoItem? {
      assert ts[0] == us[0];
      assert ts[1..] == a && us[1..] == b;
    } else {
      ValuesSplit(xs.head, ys.head, AfterItem(xs.tail, a), AfterItem(ys.tail, b));
      var x, y := AfterItem(xs.tail, a), AfterItem(ys.tail, b);
      assert x[0] == y[0] && x[1..] == y[1..];
      if xs.tail.Item? { ItemsSplit(xs.tail, ys.tail, a, b); }
    }
  }

  function AfterMember(more: Members, rest: seq<Token>): seq<Token> {
    if more.NoMember? then [Mark('}')] + rest else [Mark(',')] + (MemberTokens(more) + ([Mark('}')] + rest))
  }

  lemma {:induction false} FirstMember(members: Members, rest: seq<Token>)
    requires members.Member?
    ensures var all := MemberTokens(members) + ([Mark('}')] + rest);
            && all[0] == Quoted(members.key)
            && all[2..] == Tokens(members.value) + AfterMember(members.rest, rest)
  {
  }

  lemma {:induction false} MembersSplit(xs: Members, ys: Members, a: seq<Token>, b: seq<Token>)
    requires MemberTokens(xs) + ([Mark('}')] + a) == MemberTokens(ys) + ([Mark('}')] + b)
    ensures xs == ys && a == b
    decreases xs
  {
    var ts, us := MemberTokens(xs) + ([Mark('}')] + a), MemberTokens(ys) + ([Mark('}')] + b);
    if xs.Member? { FirstMember(xs, a); }
    if ys.Member? { FirstMember(ys, b); }
    if xs.NoMember? || ys.NoMember? {
      assert ts[0] == us[0];
      assert ts[1..] == a && us[1..] == b;
    } else {
      ValuesSplit(xs.value, ys.value, AfterMember(xs.rest, a), AfterMember(ys.rest, b));
      var x, y := AfterMember(xs.rest, a), AfterMember(ys.rest, b);
      assert x[0] == y[0] && x[1..] == y[1..];
      if xs.rest.Member? { MembersSplit(xs.rest, ys.rest, a, b); }
    }
  }

  // ---------------------------------------------------------------- text into trees

  /** Different trees are printed as different texts. */
  lemma PrintIsInjective(j: Json, k: Json)
    requires Print(j) == Print(k)
    ensures j == k
  {
    ValuesAreSeparated(j);
    ValuesAreSeparated(k);
    TextTellsTokens(Tokens(j), Tokens(k));
    assert Tokens(j) + [] == Tokens(j) && Tokens(k) + [] == Tokens(k);
    ValuesSplit(j, k, [], []);
  }

  /** JSON.parse, on text that JSON.stringify can have written. */
  ghost function Parse(text: string): Option<Json> {
    if j :| Print(j) == text then Some(j) else None
  }

  lemma ParsingUndoesPrinting(j: Json)
    ensures Parse(Print(j)) == Some(j)
  {
    var text := Print(j);
    var k := Parse(text);
    assert Print(j) == text;
    PrintIsInjective(j, k.value);
  }
}
