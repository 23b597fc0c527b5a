/** The JSON path tokenizer, and the printed forms it reads back. */
module JsonPath {
  import opened Common
  import opened Decimals
  import opened Json

  const USIZE_MAX: nat := 0xFFFF_FFFF_FFFF_FFFF

  // ------------------------------------------------------------------------------- numbers

  /** An unsigned machine integer in decimal, with an optional plus sign. */
  function ParseUsize(s: string): Option<nat> {
    var digits := if |s| > 0 && s[0] == '+' then s[1..] else s;
    if digits == "" || !AllDigits(digits) || DigitsValue(digits) > USIZE_MAX then None
    else Some(DigitsValue(digits))
  }

  lemma DecimalParses(n: nat)
    requires n <= USIZE_MAX
    ensures ParseUsize(Decimal(n)) == Some(n)
  {
    DecimalValue(n);
    assert IsDigit(Decimal(n)[0]);
  }

  /** A plus sign and leading zeros are allowed, up to 64 bits. */
  lemma UsizeForms(n: nat, zeros: nat)
    ensures ParseUsize(Zeros(zeros) + Decimal(n)) == if n <= 18_446_744_073_709_551_615 then Some(n) else None
    ensures ParseUsize("+" + Decimal(n)) == if n <= 18_446_744_073_709_551_615 then Some(n) else None
  {
    DecimalValue(n);
    ZerosValue(zeros);
    ConcatValue(Zeros(zeros), Decimal(n));
    assert IsDigit((Zeros(zeros) + Decimal(n))[0]);
    assert ("+" + Decimal(n))[1..] == Decimal(n);
  }

  /** Anything but digits after the sign, and no digits at all, is refused. */
  lemma NotUsize(s: string, i: nat)
    ensures ParseUsize("") == None && ParseUsize("+") == None
    ensures i < |s| && !IsDigit(s[i]) && !(i == 0 && s[0] == '+') ==> ParseUsize(s) == None
  {
    if i < |s| && !IsDigit(s[i]) && !(i == 0 && s[0] == '+') && s[0] == '+' {
      assert s[1..][i - 1] == s[i];
    }
  }

  // --------------------------------------------------------------------------- the tokenizer

  predicate Separator(c: char) { c == '.' || c == ':' }

  /** Whether a plain key ends before c. */
  predicate EndsPlain(c: char) { Separator(c) || c == '[' }

  /** The number of characters before the first one that satisfies stop. */
  function Span(s: string, stop: char -> bool): (n: nat)
    ensures n <= |s|
    ensures forall i :: 0 <= i < n ==> !stop(s[i])
    ensures n < |s| ==> stop(s[n])
  {
    if s == "" || stop(s[0]) then 0 else 1 + Span(s[1..], stop)
  }

  /** What follows a part of n characters and its closing character, which may be missing. */
  function After(s: string, n: nat): string {
    if n + 1 <= |s| then s[n + 1..] else ""
  }

  function Closes(close: char): char -> bool { c => c == close }

  function PlainEnd(): char -> bool { c => EndsPlain(c) }

  function Prepend(tokens: seq<PathToken>, rest: Option<seq<PathToken>>): Option<seq<PathToken>> {
    if rest.None? then None else Some(tokens + rest.value)
  }

  /** What one turn of the tokenizer takes off the front: the tokens it pushes and the text left. */
  datatype Turn = Turn(pushed: seq<PathToken>, rest: string)

  function Next(s: string): (r: Option<Turn>)
    requires s != ""
    ensures r.Some? ==> |r.value.rest| < |s|
  {
    if Separator(s[0]) then Some(Turn([], s[1..]))
    else if s[0] == '"' then
      var n := Span(s[1..], Closes('"'));
      Some(Turn([Key(s[1..][..n])], After(s[1..], n)))
    else if s[0] == '[' then
      var n := Span(s[1..], Closes(']'));
      var index := ParseUsize(s[1..][..n]);
      if index.None? then None else Some(Turn([Index(index.value)], After(s[1..], n)))
    else
      var n := Span(s, PlainEnd());
      Some(Turn([Key(s[..n])], s[n..]))
  }

  function Tokenize(s: string): Option<seq<PathToken>>
    decreases |s|
  {
    if s == "" then Some([])
    else
      var turn := Next(s);
      if turn.None? then None else Prepend(turn.value.pushed, Tokenize(turn.value.rest))
  }

  lemma PrependTwice(a: seq<PathToken>, b: seq<PathToken>, rest: Option<seq<PathToken>>)
    ensures Prepend(a, Prepend(b, rest)) == Prepend(a + b, rest)
  {
    if rest.Some? {
      assert a + (b + rest.value) == a + b + rest.value;
    }
  }

  lemma PrependNothing(tokens: seq<PathToken>, rest: Option<seq<PathToken>>)
    ensures Prepend([], rest) == rest && Prepend(tokens, Some([])) == Some(tokens)
  {
    assert tokens + [] == tokens;
    if rest.Some? {
      assert [] + rest.value == rest.value;
    }
  }

  lemma {:induction false} SpanIs(s: string, stop: char -> bool, n: nat)
    requires n <= |s| && (forall i :: 0 <= i < n ==> !stop(s[i])) && (n < |s| ==> stop(s[n]))
    ensures Span(s, stop) == n
  {
    assert Span(s, stop) <= |s|;
  }

  /** Reads a part up to a closing character, which it also passes when it is there. */
  method ReadClosed(path: string, from: nat, close: char) returns (part: string, i: nat)
    requires from <= |path|
    ensures from <= i <= |path|
    ensures
      var n := Span(path[from..], Closes(close));
      part == path[from..][..n] && path[i..] == After(path[from..], n)
  {
    part, i := "", from;
    while i < |path|
      invariant from <= i <= |path| && part == path[from..i]
      invariant forall k :: from <= k < i ==> path[k] != close
    {
      var c := path[i];
      if c == close {
        ClosedAt(path, from, i, close);
        i := i + 1;
        return;
      }
      part := part + [c];
      i := i + 1;
    }
    ClosedAt(path, from, i, close);
  }

  /** The part ends at the first closing character, or at the end of the path. */
  lemma ClosedAt(path: string, from: nat, i: nat, close: char)
    requires from <= i <= |path| && (forall k :: from <= k < i ==> path[k] != close)
    requires i < |path| ==> path[i] == close
    ensures Span(path[from..], Closes(close)) == i - from && path[from..][..i - from] == path[from..i]
    ensures After(path[from..], i - from) == if i < |path| then path[i + 1..] else path[i..]
  {
    var s := path[from..];
    assert forall k :: 0 <= k < i - from ==> s[k] == path[from + k];
    SpanIs(s, Closes(close), i - from);
    if i < |path| {
      assert s[i - from + 1..] == path[i + 1..];
    }
  }

  method ReadPlain(path: string, from: nat) returns (part: string, i: nat)
    requires from <= |path|
    ensures from <= i <= |path|
    ensures
      var n := Span(path[from..], PlainEnd());
      i == from + n && part == path[from..][..n]
  {
    part, i := "", from;
    while i < |path|
      invariant from <= i <= |path| && part == path[from..i]
      invariant forall k :: from <= k < i ==> !EndsPlain(path[k])
    {
      if EndsPlain(path[i]) {
        break;
      }
      part := part + [path[i]];
      i := i + 1;
    }
    SpanIs(path[from..], PlainEnd(), i - from);
  }

  method TakeTurn(path: string, from: nat) returns (pushed: Option<seq<PathToken>>, i: nat)
    requires from < |path|
    ensures pushed.None? <==> Next(path[from..]).None?
    ensures pushed.Some? ==> from < i <= |path| && Next(path[from..]) == Some(Turn(pushed.value, path[i..]))
  {
    var ch := path[from];
    assert path[from..][1..] == path[from + 1..];
    if Separator(ch) {
      pushed, i := Some([]), from + 1;
    } else if ch == '"' {
      var key;
      key, i := ReadClosed(path, from + 1, '"');
      pushed := Some([Key(key)]);
    } else if ch == '[' {
      var num;
      num, i := ReadClosed(path, from + 1, ']');
      var index := ParseUsize(num);
      pushed := if index.Some? then Some([Index(index.value)]) else None;
    } else {
      var key;
      key, i := ReadPlain(path, from);
      assert path[from..][i - from..] == path[i..];
      pushed := Some([Key(key)]);
    }
  }

  method TokenizePath(path: string) returns (r: Option<seq<PathToken>>)
    ensures r == Tokenize(path)
  {
    var tokens: seq<PathToken> := [];
    var i := 0;
    assert path[0..] == path;
    PrependNothing([], Tokenize(path));
    while i < |path|
      invariant 0 <= i <= |path|
      invariant Tokenize(path) == Prepend(tokens, Tokenize(path[i..]))
    {
      var pushed, j := TakeTurn(path, i);
      if pushed.None? {
        return None;
      }
      PrependTwice(tokens, pushed.value, Tokenize(path[j..]));
      tokens, i := tokens + pushed.value, j;
    }
    PrependNothing(tokens, None);
    r := Some(tokens);
  }

  // --------------------------------------------------------------------------- printed paths

  /** A token as it is written: after any separators, quoted or, for some keys, plain. */
  datatype Piece = Piece(separators: string, token: PathToken, plain: bool)

  predicate AllSeparators(s: string) { forall i :: 0 <= i < |s| ==> Separator(s[i]) }

  /** A key that can stand without quotes. */
  predicate PlainKey(key: string) {
    key != "" && key[0] != '"' && forall i :: 0 <= i < |key| ==> !EndsPlain(key[i])
  }

  predicate Printable(p: Piece) {
    && AllSeparators(p.separators)
    && match p.token
       case Key(key) => if p.plain then PlainKey(key) else forall i :: 0 <= i < |key| ==> key[i] != '"'
       case Index(i) => !p.plain && i <= USIZE_MAX
  }

  /** A plain key must be followed by the end, a separator or a bracket. */
  predicate PrintableAll(ps: seq<Piece>) {
    && (forall i :: 0 <= i < |ps| ==> Printable(ps[i]))
    && (forall i :: 0 <= i < |ps| - 1 && ps[i].plain ==> ps[i + 1].separators != "" || ps[i + 1].token.Index?)
  }

  function PrintToken(p: Piece): string {
    match p.token
    case Key(key) => if p.plain then key else ['"'] + key + ['"']
    case Index(i) => ['['] + Decimal(i) + [']']
  }

  function Print(ps: seq<Piece>): string {
    if ps == [] then "" else ps[0].separators + (PrintToken(ps[0]) + Print(ps[1..]))
  }

  function Tokens(ps: seq<Piece>): seq<PathToken> {
    if ps == [] then [] else [ps[0].token] + Tokens(ps[1..])
  }

  lemma {:induction false} SkipSeparators(separators: string, s: string)
    requires AllSeparators(separators)
    ensures Tokenize(separators + s) == Tokenize(s)
  {
    if separators == "" {
      assert separators + s == s;
    } else {
      assert (separators + s)[1..] == separators[1..] + s;
      SkipSeparators(separators[1..], s);
      PrependNothing([], Tokenize(s));
    }
  }

  /** A closed part is read whole and what follows it is untouched. */
  lemma ClosedPart(part: string, close: char, rest: string)
    requires forall i :: 0 <= i < |part| ==> part[i] != close
    ensures
      var s := part + [close] + rest;
      Span(s, Closes(close)) == |part| && s[..|part|] == part && After(s, |part|) == rest
  {
    SpanIs(part + [close] + rest, Closes(close), |part|);
  }

  lemma TokenReadsBack(p: Piece, rest: string)
    requires Printable(p) && (p.plain && rest != "" ==> EndsPlain(rest[0]))
    ensures Next(PrintToken(p) + rest) == Some(Turn([p.token], rest))
  {
    var s := PrintToken(p) + rest;
    match p.token
    case Key(key) =>
      if p.plain {
        SpanIs(s, PlainEnd(), |key|);
        assert s[..|key|] == key && s[|key|..] == rest;
      } else {
        assert s[1..] == key + ['"'] + rest;
        ClosedPart(key, '"', rest);
      }
    case Index(i) =>
      var digits := Decimal(i);
      assert s[1..] == digits + [']'] + rest;
      ClosedPart(digits, ']', rest);
      DecimalParses(i);
  }

  lemma PrintStart(ps: seq<Piece>)
    requires PrintableAll(ps) && ps != [] && (ps[0].separators != "" || ps[0].token.Index?)
    ensures Print(ps) != "" && EndsPlain(Print(ps)[0])
  {
  }

  lemma PrintableRest(ps: seq<Piece>)
    requires PrintableAll(ps) && ps != []
    ensures PrintableAll(ps[1..])
    ensures ps[0].plain && |ps| > 1 ==> Print(ps[1..]) != "" && EndsPlain(Print(ps[1..])[0])
  {
    var rest := ps[1..];
    forall i | 0 <= i < |rest| - 1 && rest[i].plain
      ensures rest[i + 1].separators != "" || rest[i + 1].token.Index?
    {
      assert rest[i] == ps[i + 1] && rest[i + 1] == ps[i + 2];
    }
    if ps[0].plain && |ps| > 1 {
      assert ps[0 + 1] == rest[0];
      PrintStart(rest);
    }
  }

  lemma PieceReadsBack(p: Piece, rest: string)
    requires Printable(p) && (p.plain && rest != "" ==> EndsPlain(rest[0]))
    ensures Tokenize(p.separators + (PrintToken(p) + rest)) == Prepend([p.token], Tokenize(rest))
  {
    SkipSeparators(p.separators, PrintToken(p) + rest);
    TokenReadsBack(p, rest);
    assert PrintToken(p) != "";
  }

  lemma Regroup(a: string, b: string, c: string, d: string)
    ensures (a + (b + c)) + d == a + (b + (c + d))
  {
  }

  /** What may follow the pieces: anything, or after a plain key the end, a separator or a bracket. */
  predicate MayFollow(ps: seq<Piece>, s: string) {
    ps != [] && ps[|ps| - 1].plain && s != "" ==> EndsPlain(s[0])
  }

  /** Every printed token list, quoted or plain and with any separators, is read exactly, and then what follows it. */
  lemma {:induction false} PrintedPrefix(ps: seq<Piece>, s: string)
    requires PrintableAll(ps) && MayFollow(ps, s)
    ensures Tokenize(Print(ps) + s) == Prepend(Tokens(ps), Tokenize(s))
  {
    if ps == [] {
      assert Print(ps) + s == s;
      PrependNothing([], Tokenize(s));
    } else {
      PrintableRest(ps);
      PrintedPrefix(ps[1..], s);
      var rest := Print(ps[1..]) + s;
      if |ps| == 1 {
        assert rest == s;
      }
      PieceReadsBack(ps[0], rest);
      Regroup(ps[0].separators, PrintToken(ps[0]), Print(ps[1..]), s);
      PrependTwice([ps[0].token], Tokens(ps[1..]), Tokenize(s));
    }
  }

  /** A printed token list is read back. */
  lemma PrintedPathReadsBack(ps: seq<Piece>, trailing: string)
    requires PrintableAll(ps) && AllSeparators(trailing)
    ensures Tokenize(Print(ps) + trailing) == Some(Tokens(ps))
  {
    PrintedPrefix(ps, trailing);
    SkipSeparators(trailing, "");
    assert trailing + "" == trailing;
    PrependNothing(Tokens(ps), None);
  }

  predicate FreeOf(key: string, marks: string) {
    forall i :: 0 <= i < |key| ==> key[i] !in marks
  }

  /** A key without dots, colons, opening brackets and a leading quote is read whole before any of the three. */
  lemma PlainKeyReads(key: string, rest: string)
    requires key != "" && key[0] != '"' && FreeOf(key, ".:[") && (rest != "" ==> rest[0] in ".:[")
    ensures Tokenize(key + rest) == Prepend([Key(key)], Tokenize(rest))
  {
    TokenReadsBack(Piece("", Key(key), true), rest);
    assert PrintToken(Piece("", Key(key), true)) == key;
  }

  /** Dots and colons are skipped. */
  lemma SeparatorsSkipped(rest: string)
    ensures Tokenize("." + rest) == Tokenize(":" + rest) == Tokenize(rest)
  {
    SkipSeparators(".", rest);
    SkipSeparators(":", rest);
  }

  /** A quote that is never closed makes a key of the rest of the path. */
  lemma UnclosedQuote(ps: seq<Piece>, separators: string, key: string)
    requires PrintableAll(ps) && AllSeparators(separators) && MayFollow(ps, separators + "\"" + key)
    requires forall i :: 0 <= i < |key| ==> key[i] != '"'
    ensures Tokenize(Print(ps) + (separators + "\"" + key)) == Some(Tokens(ps) + [Key(key)])
  {
    var s := "\"" + key;
    assert s[1..] == key && key[..|key|] == key;
    SpanIs(key, Closes('"'), |key|);
    PrependNothing([Key(key)], None);
    SkipSeparators(separators, s);
    assert separators + s == separators + "\"" + key;
    PrintedPrefix(ps, separators + s);
  }

  /** A bracket with this text, closed before the rest or left open at the end of the path. */
  function Bracket(text: string, rest: string, closed: bool): string {
    "[" + text + (if closed then "]" + rest else "")
  }

  lemma BracketAlone(text: string, rest: string, closed: bool)
    requires (forall i :: 0 <= i < |text| ==> text[i] != ']') && (!closed ==> rest == "")
    ensures Next(Bracket(text, rest, closed))
            == if ParseUsize(text).None? then None else Some(Turn([Index(ParseUsize(text).value)], rest))
  {
    var s := Bracket(text, rest, closed);
    if closed {
      assert s[1..] == text + [']'] + rest;
      ClosedPart(text, ']', rest);
    } else {
      assert s[1..] == text && text[..|text|] == text;
      SpanIs(text, Closes(']'), |text|);
    }
  }

  /** A bracket is read as an index up to its end or the end of the path, and no index ends the whole reading. */
  lemma BracketReads(ps: seq<Piece>, text: string, rest: string, closed: bool)
    requires PrintableAll(ps) && (forall i :: 0 <= i < |text| ==> text[i] != ']') && (!closed ==> rest == "")
    ensures Tokenize(Print(ps) + Bracket(text, rest, closed))
            == if ParseUsize(text).None? then None
               else Prepend(Tokens(ps) + [Index(ParseUsize(text).value)], Tokenize(rest))
  {
    PrintedPrefix(ps, Bracket(text, rest, closed));
    BracketAlone(text, rest, closed);
    if ParseUsize(text).Some? {
      PrependTwice(Tokens(ps), [Index(ParseUsize(text).value)], Tokenize(rest));
    }
  }
}
