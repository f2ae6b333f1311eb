/**
 Command lines: the label, and arguments separated by blanks, where an argument may be quoted
 and a backslash escapes inside quotes.
 */
module CommandLine {
  import opened Wrappers

  // ---------- trimming ----------

  /** The white space of Unicode. */
  predicate IsSpace(c: char) {
    var u := c as int;
    0x9 <= u <= 0xd || u in {0x20, 0x85, 0xa0, 0x1680, 0x2028, 0x2029, 0x202f, 0x205f, 0x3000} || 0x2000 <= u <= 0x200a
  }

  function TrimLeft(s: string): string {
    if s != [] && IsSpace(s[0]) then TrimLeft(s[1..]) else s
  }

  function TrimRight(s: string): string {
    if s != [] && IsSpace(s[|s| - 1]) then TrimRight(s[..|s| - 1]) else s
  }

  function TrimSpace(s: string): string {
    TrimRight(TrimLeft(s))
  }

  function TrimSlash(s: string): string {
    if s != [] && s[0] == '/' then s[1..] else s
  }

  // ---------- the scanner ----------

  datatype Scan = Scan(args: seq<string>, token: string, quote: Option<char>, escaped: bool, tokenOpen: bool)

  const START := Scan([], "", None, false, false)

  predicate IsQuote(r: char) {
    r == '\'' || r == '"'
  }

  predicate IsBlank(r: char) {
    r == ' ' || r == '\t'
  }

  /** Blanks and tabs separate, single and double quotes group. */
  lemma CharactersAre(r: char)
    ensures IsBlank(r) <==> r == ' ' || r == '\t'
    ensures IsQuote(r) <==> r == '\'' || r == '\"'
  {
  }

  function Step(s: Scan, r: char): Scan {
    if s.escaped then s.(token := s.token + [r], escaped := false, tokenOpen := true)
    else if r == '\\' && s.quote.Some? then s.(escaped := true)
    else if s.quote.Some? then
      if r == s.quote.value then s.(quote := None)
      else s.(token := s.token + [r], tokenOpen := true)
    else if IsQuote(r) then s.(quote := Some(r), tokenOpen := true)
    else if IsBlank(r) then
      if s.tokenOpen then s.(args := s.args + [s.token], token := "", tokenOpen := false) else s
    else s.(token := s.token + [r], tokenOpen := true)
  }

  function ScanAll(s: Scan, value: string): Scan
    decreases |value|
  {
    if value == [] then s else ScanAll(Step(s, value[0]), value[1..])
  }

  /** The arguments, or nothing when the scan ends inside a quote. */
  function Finish(s: Scan): Option<seq<string>> {
    if s.quote.Some? then None
    else if s.tokenOpen then Some(s.args + [s.token])
    else Some(s.args)
  }

  function SplitArgs(value: string): Option<seq<string>> {
    Finish(ScanAll(START, value))
  }

  method SplitArguments(value: string) returns (r: Option<seq<string>>)
    ensures r == SplitArgs(value)
  {
    var args: seq<string> := [];
    var builder := "";
    var inQuote: Option<char> := None;
    var escaped, tokenOpen := false, false;
    var i := 0;
    while i < |value|
      invariant 0 <= i <= |value|
      invariant ScanAll(START, value) == ScanAll(Scan(args, builder, inQuote, escaped, tokenOpen), value[i..])
      invariant escaped ==> inQuote.Some?
    {
      var c := value[i];
      i := i + 1;
      if escaped {
        builder, escaped, tokenOpen := builder + [c], false, true;
        continue;
      }
      if c == '\\' && inQuote.Some? {
        escaped := true;
        continue;
      }
      if inQuote.Some? {
        if c == inQuote.value {
          inQuote := None;
          continue;
        }
        builder, tokenOpen := builder + [c], true;
        continue;
      }
      if c == '\'' || c == '"' {
        inQuote, tokenOpen := Some(c), true;
      } else if c == ' ' || c == '\t' {
        if tokenOpen {
          args, builder, tokenOpen := args + [builder], "", false;
        }
      } else {
        builder, tokenOpen := builder + [c], true;
      }
    }
    if escaped {
      builder := builder + ['\\'];
    }
    if inQuote.Some? {
      return None;
    }
    if tokenOpen {
      args := args + [builder];
    }
    r := Some(args);
  }

  lemma {:induction false} ScanConcat(s: Scan, a: string, b: string)
    ensures ScanAll(s, a + b) == ScanAll(ScanAll(s, a), b)
    decreases |a|
  {
    if a == [] {
      assert a + b == b;
    } else {
      assert (a + b)[1..] == a[1..] + b;
      ScanConcat(Step(s, a[0]), a[1..], b);
    }
  }

  // ---------- when the scanner fails ----------

  /** A character between quotes: as it is, or after a backslash. */
  datatype Inner = Literal(c: char) | Escaped(c: char)

  /** A piece of a line: a character outside of quotes, or a complete quoted group. */
  datatype Piece = Outer(c: char) | Group(quote: char, inner: seq<Inner>)

  predicate GoodInner(inner: seq<Inner>, quote: char) {
    forall i :: 0 <= i < |inner| && inner[i].Literal? ==> inner[i].c != quote && inner[i].c != '\\'
  }

  predicate GoodPiece(piece: Piece) {
    match piece
    case Outer(c) => !IsQuote(c)
    case Group(quote, inner) => IsQuote(quote) && GoodInner(inner, quote)
  }

  function OneText(one: Inner): string {
    if one.Literal? then [one.c] else ['\\', one.c]
  }

  function InnerText(inner: seq<Inner>): string {
    if inner == [] then [] else OneText(inner[0]) + InnerText(inner[1..])
  }

  function PieceText(piece: Piece): string {
    match piece
    case Outer(c) => [c]
    case Group(quote, inner) => [quote] + (InnerText(inner) + [quote])
  }

  function Text(pieces: seq<Piece>): string {
    if pieces == [] then [] else PieceText(pieces[0]) + Text(pieces[1..])
  }

  ghost predicate Decomposes(value: string, pieces: seq<Piece>) {
    (forall i :: 0 <= i < |pieces| ==> GoodPiece(pieces[i])) && Text(pieces) == value
  }

  /** The text is a sequence of unquoted characters and complete quoted groups. */
  ghost predicate Balanced(value: string) {
    exists pieces :: Decomposes(value, pieces)
  }

  /** The scanner stands outside of quotes, or inside of a quote and not after a backslash. */
  predicate Outside(s: Scan) {
    s.quote.None? && !s.escaped
  }

  predicate Inside(s: Scan, quote: char) {
    s.quote == Some(quote) && !s.escaped
  }

  lemma ScanOne(s: Scan, c: char, rest: string)
    ensures ScanAll(s, [c] + rest) == ScanAll(Step(s, c), rest)
  {
    assert ([c] + rest)[1..] == rest;
  }

  lemma Regroup<T>(a: seq<T>, b: seq<T>, c: seq<T>)
    ensures (a + b) + c == a + (b + c)
  {
  }

  lemma InnerFirst(one: Inner, inner: seq<Inner>, tail: string)
    ensures InnerText([one] + inner) + tail == OneText(one) + (InnerText(inner) + tail)
  {
    assert ([one] + inner)[1..] == inner;
    Regroup(OneText(one), InnerText(inner), tail);
  }

  /** The first character, or escaped character, of a scan inside a quote that does not end the quote. */
  lemma ScanFirstInner(s: Scan, quote: char, value: string) returns (one: Inner, rest: string, after: Scan)
    requires IsQuote(quote) && Inside(s, quote) && ScanAll(s, value).quote.None? && value[..1] != [quote]
    ensures GoodInner([one], quote) && value == OneText(one) + rest
    ensures Inside(after, quote) && ScanAll(s, value) == ScanAll(after, rest)
  {
    var c := value[0];
    assert value == [c] + value[1..];
    if c != '\\' {
      one, rest, after := Literal(c), value[1..], Step(s, c);
    } else {
      var d := value[1];
      assert value[1..] == [d] + value[2..] && value == ['\\', d] + value[2..];
      one, rest, after := Escaped(d), value[2..], Step(Step(s, c), d);
    }
  }

  /** From inside a quote, a scan that ends outside has passed a complete group. */
  lemma {:induction false} FindGroup(s: Scan, quote: char, value: string)
    returns (inner: seq<Inner>, rest: string, after: Scan)
    requires IsQuote(quote) && Inside(s, quote) && ScanAll(s, value).quote.None?
    ensures GoodInner(inner, quote) && value == InnerText(inner) + ([quote] + rest)
    ensures Outside(after) && ScanAll(s, value) == ScanAll(after, rest)
    decreases |value|
  {
    if value[..1] == [quote] {
      assert value == [quote] + value[1..] && value[0] == quote;
      return [], value[1..], Step(s, quote);
    }
    var one, tail, next := ScanFirstInner(s, quote, value);
    inner, rest, after := FindGroup(next, quote, tail);
    InnerFirst(one, inner, [quote] + rest);
    assert [one][0] == one;
    inner := [one] + inner;
  }

  lemma {:induction false} FindPieces(s: Scan, value: string) returns (pieces: seq<Piece>)
    requires Outside(s) && ScanAll(s, value).quote.None?
    ensures Decomposes(value, pieces)
    decreases |value|
  {
    if value == [] {
      return [];
    }
    var c := value[0];
    assert value == [c] + value[1..];
    if IsQuote(c) {
      var inner, rest, after := FindGroup(Step(s, c), c, value[1..]);
      pieces := FindPieces(after, rest);
      assert value == PieceText(Group(c, inner)) + rest;
      pieces := [Group(c, inner)] + pieces;
    } else {
      pieces := FindPieces(Step(s, c), value[1..]);
      pieces := [Outer(c)] + pieces;
    }
  }

  // ---------- what the arguments are ----------

  /** What is left of a quoted group or a character when quotes and escapes are taken away. */
  function InnerValue(inner: seq<Inner>): string {
    if inner == [] then [] else [inner[0].c] + InnerValue(inner[1..])
  }

  function PieceValue(piece: Piece): string {
    if piece.Outer? then [piece.c] else InnerValue(piece.inner)
  }

  function Value(pieces: seq<Piece>): string {
    if pieces == [] then [] else PieceValue(pieces[0]) + Value(pieces[1..])
  }

  predicate IsSeparator(piece: Piece) {
    piece.Outer? && IsBlank(piece.c)
  }

  /** How many pieces there are before the first separator. */
  function WordLength(pieces: seq<Piece>): (n: nat)
    ensures n <= |pieces| && (n < |pieces| ==> IsSeparator(pieces[n]))
    ensures forall i :: 0 <= i < n ==> !IsSeparator(pieces[i])
  {
    if pieces == [] || IsSeparator(pieces[0]) then 0 else 1 + WordLength(pieces[1..])
  }

  /** The values of the words between separators; a word has at least one piece. */
  function Arguments(pieces: seq<Piece>): seq<string>
    decreases |pieces|
  {
    if pieces == [] then []
    else if IsSeparator(pieces[0]) then Arguments(pieces[1..])
    else [Value(pieces[..WordLength(pieces)])] + Arguments(pieces[WordLength(pieces)..])
  }

  lemma ScanOneInner(s: Scan, quote: char, one: Inner, rest: string)
    requires Inside(s, quote) && GoodInner([one], quote) && s.tokenOpen
    ensures ScanAll(s, OneText(one) + rest) == ScanAll(s.(token := s.token + [one.c]), rest)
  {
    assert [one][0] == one;
    if one.Literal? {
      ScanOne(s, one.c, rest);
    } else {
      assert OneText(one) + rest == ['\\'] + ([one.c] + rest);
      ScanOne(s, '\\', [one.c] + rest);
      ScanOne(Step(s, '\\'), one.c, rest);
    }
  }

  lemma {:induction false} ScanInnerValue(s: Scan, quote: char, inner: seq<Inner>, rest: string)
    requires Inside(s, quote) && GoodInner(inner, quote) && s.tokenOpen
    ensures ScanAll(s, InnerText(inner) + rest) == ScanAll(s.(token := s.token + InnerValue(inner)), rest)
    decreases |inner|
  {
    if inner == [] {
      assert InnerText(inner) + rest == rest && s.token + InnerValue(inner) == s.token;
    } else {
      Regroup(OneText(inner[0]), InnerText(inner[1..]), rest);
      ScanOneInner(s, quote, inner[0], InnerText(inner[1..]) + rest);
      ScanInnerValue(s.(token := s.token + [inner[0].c]), quote, inner[1..], rest);
      Regroup(s.token, [inner[0].c], InnerValue(inner[1..]));
    }
  }

  /** A piece that is no separator adds its value to the open token, and opens one if there is none. */
  lemma ScanPieceValue(s: Scan, piece: Piece, rest: string)
    requires Outside(s) && GoodPiece(piece) && !IsSeparator(piece)
    ensures ScanAll(s, PieceText(piece) + rest)
         == ScanAll(s.(token := s.token + PieceValue(piece), tokenOpen := true), rest)
  {
    match piece
    case Outer(c) => ScanOne(s, c, rest);
    case Group(quote, inner) =>
      var inside := Step(s, quote);
      var last := inside.(token := inside.token + InnerValue(inner));
      assert PieceText(piece) + rest == [quote] + (InnerText(inner) + ([quote] + rest));
      ScanOne(s, quote, InnerText(inner) + ([quote] + rest));
      ScanInnerValue(inside, quote, inner, [quote] + rest);
      ScanOne(last, quote, rest);
  }

  lemma {:induction false} ScanWord(s: Scan, word: seq<Piece>, rest: string)
    requires Outside(s) && forall i :: 0 <= i < |word| ==> GoodPiece(word[i]) && !IsSeparator(word[i])
    ensures var after := s.(token := s.token + Value(word), tokenOpen := s.tokenOpen || word != []);
            ScanAll(s, Text(word) + rest) == ScanAll(after, rest)
    decreases |word|
  {
    if word == [] {
      assert Text(word) + rest == rest && s.token + Value(word) == s.token;
    } else {
      Regroup(PieceText(word[0]), Text(word[1..]), rest);
      ScanPieceValue(s, word[0], Text(word[1..]) + rest);
      ScanWord(s.(token := s.token + PieceValue(word[0]), tokenOpen := true), word[1..], rest);
      Regroup(s.token, PieceValue(word[0]), Value(word[1..]));
    }
  }

  lemma {:induction false} TextConcat(a: seq<Piece>, b: seq<Piece>)
    ensures Text(a + b) == Text(a) + Text(b)
    decreases |a|
  {
    if a == [] {
      assert a + b == b;
    } else {
      assert (a + b)[1..] == a[1..] + b;
      TextConcat(a[1..], b);
    }
  }

  /** Between two words: the token is closed and empty. */
  predicate IsBetween(s: Scan) {
    Outside(s) && !s.tokenOpen && s.token == ""
  }

  lemma ScanFirstWord(s: Scan, word: seq<Piece>, rest: seq<Piece>)
    requires IsBetween(s) && word != []
    requires forall i :: 0 <= i < |word| ==> GoodPiece(word[i]) && !IsSeparator(word[i])
    ensures ScanAll(s, Text(word + rest)) == ScanAll(s.(token := Value(word), tokenOpen := true), Text(rest))
  {
    TextConcat(word, rest);
    ScanWord(s, word, Text(rest));
    assert "" + Value(word) == Value(word);
  }

  lemma {:induction false} ScanArguments(s: Scan, pieces: seq<Piece>)
    requires IsBetween(s) && forall i :: 0 <= i < |pieces| ==> GoodPiece(pieces[i])
    ensures Finish(ScanAll(s, Text(pieces))) == Some(s.args + Arguments(pieces))
    decreases |pieces|, 1
  {
    if pieces == [] {
      assert s.args + Arguments(pieces) == s.args;
    } else if IsSeparator(pieces[0]) {
      ScanSeparator(s, pieces);
      ScanArguments(s, pieces[1..]);
    } else {
      var n := WordLength(pieces);
      assert pieces == pieces[..n] + pieces[n..];
      ScanWordAndRest(s, pieces[..n], pieces[n..]);
    }
  }

  lemma ScanSeparator(s: Scan, pieces: seq<Piece>)
    requires pieces != [] && IsSeparator(pieces[0])
    ensures ScanAll(s, Text(pieces)) == ScanAll(Step(s, pieces[0].c), Text(pieces[1..]))
  {
    ScanOne(s, pieces[0].c, Text(pieces[1..]));
  }

  lemma {:induction false} ScanWordAndRest(s: Scan, word: seq<Piece>, rest: seq<Piece>)
    requires IsBetween(s) && word != []
    requires forall i :: 0 <= i < |word| ==> GoodPiece(word[i]) && !IsSeparator(word[i])
    requires (forall i :: 0 <= i < |rest| ==> GoodPiece(rest[i])) && (rest != [] ==> IsSeparator(rest[0]))
    ensures Finish(ScanAll(s, Text(word + rest))) == Some(s.args + ([Value(word)] + Arguments(rest)))
    decreases |rest|, 3
  {
    ScanFirstWord(s, word, rest);
    ScanAfterWord(s.(token := Value(word), tokenOpen := true), rest);
    Regroup(s.args, [Value(word)], Arguments(rest));
  }

  /** The open token becomes an argument, at the end or at the separator that follows. */
  lemma {:induction false} ScanAfterWord(read: Scan, rest: seq<Piece>)
    requires Outside(read) && read.tokenOpen && (forall i :: 0 <= i < |rest| ==> GoodPiece(rest[i]))
    requires rest != [] ==> IsSeparator(rest[0])
    ensures Finish(ScanAll(read, Text(rest))) == Some(read.args + [read.token] + Arguments(rest))
    decreases |rest|, 2
  {
    if rest == [] {
      assert read.args + [read.token] + [] == read.args + [read.token];
    } else {
      ScanSeparator(read, rest);
      ScanArguments(Step(read, rest[0].c), rest[1..]);
    }
  }

  /** The arguments of any text in which every quote is closed are the values of its words. */
  lemma ArgumentsAre(value: string, pieces: seq<Piece>)
    requires Decomposes(value, pieces)
    ensures SplitArgs(value) == Some(Arguments(pieces))
  {
    ScanArguments(START, pieces);
    assert [] + Arguments(pieces) == Arguments(pieces);
  }

  /** The scanner succeeds exactly on texts in which every quote is closed. */
  lemma SucceedsIffBalanced(value: string)
    ensures SplitArgs(value).Some? <==> Balanced(value)
  {
    if SplitArgs(value).Some? {
      var pieces := FindPieces(START, value);
    }
    if Balanced(value) {
      var pieces :| Decomposes(value, pieces);
      ArgumentsAre(value, pieces);
    }
  }

  // ---------- writing arguments down ----------

  /** Ways to write an argument: as it is, or in quotes of either kind. */
  datatype Style = Bare | Quoted(quote: char)

  function Escape(value: string, quote: char): string {
    if value == [] then []
    else (if value[0] == '\\' || value[0] == quote then ['\\', value[0]] else [value[0]]) + Escape(value[1..], quote)
  }

  predicate IsPlain(r: char) {
    !IsBlank(r) && !IsQuote(r)
  }

  predicate Writable(style: Style, value: string) {
    match style
    case Bare => value != [] && forall i :: 0 <= i < |value| ==> IsPlain(value[i])
    case Quoted(quote) => IsQuote(quote)
  }

  function Write(style: Style, value: string): string {
    match style
    case Bare => value
    case Quoted(quote) => [quote] + Escape(value, quote) + [quote]
  }

  datatype Arg = Arg(style: Style, value: string)

  ghost predicate AllWritable(args: seq<Arg>) {
    forall i :: 0 <= i < |args| ==> Writable(args[i].style, args[i].value)
  }

  function WriteArgs(args: seq<Arg>): string {
    if args == [] then []
    else if |args| == 1 then Write(args[0].style, args[0].value)
    else Write(args[0].style, args[0].value) + " " + WriteArgs(args[1..])
  }

  function Values(args: seq<Arg>): (r: seq<string>)
    ensures |r| == |args|
  {
    seq(|args|, i requires 0 <= i < |args| => args[i].value)
  }

  lemma {:induction false} ScanEscaped(s: Scan, value: string, quote: char)
    requires IsQuote(quote) && s.quote == Some(quote) && !s.escaped && s.tokenOpen
    ensures ScanAll(s, Escape(value, quote)) == s.(token := s.token + value)
    decreases |value|
  {
    if value == [] {
      assert s.token + value == s.token;
    } else {
      var c := value[0];
      var next := s.(token := s.token + [c]);
      var first := if c == '\\' || c == quote then ['\\', c] else [c];
      assert ScanAll(s, first) == next by {
        if c == '\\' || c == quote {
          assert first[1..] == [c] && [c][1..] == [];
          assert ScanAll(s, first) == ScanAll(Step(s, '\\'), [c]);
          assert ScanAll(Step(s, '\\'), [c]) == ScanAll(Step(Step(s, '\\'), c), []);
        } else {
          assert first[1..] == [];
          assert ScanAll(s, first) == ScanAll(Step(s, c), []);
        }
      }
      ScanConcat(s, first, Escape(value[1..], quote));
      ScanEscaped(next, value[1..], quote);
      assert s.token + [c] + value[1..] == s.token + value;
    }
  }

  lemma {:induction false} ScanPlain(s: Scan, value: string)
    requires s.quote.None? && !s.escaped && value != []
    requires forall i :: 0 <= i < |value| ==> IsPlain(value[i])
    ensures ScanAll(s, value) == s.(token := s.token + value, tokenOpen := true)
    decreases |value|
  {
    var next := Step(s, value[0]);
    assert IsPlain(value[0]);
    if |value| == 1 {
      assert value[1..] == [] && value == [value[0]];
    } else {
      ScanPlain(next, value[1..]);
      assert s.token + [value[0]] + value[1..] == s.token + value;
    }
  }

  /** From between two arguments, a written argument becomes the open token. */
  lemma ScanWritten(s: Scan, style: Style, value: string)
    requires s.quote.None? && !s.escaped && !s.tokenOpen && s.token == "" && Writable(style, value)
    ensures ScanAll(s, Write(style, value)) == s.(token := value, tokenOpen := true)
  {
    match style
    case Bare =>
      ScanPlain(s, value);
      assert "" + value == value;
    case Quoted(quote) =>
      var inside := s.(quote := Some(quote), tokenOpen := true);
      assert Write(style, value)[1..] == Escape(value, quote) + [quote];
      ScanEscaped(inside, value, quote);
      ScanConcat(inside, Escape(value, quote), [quote]);
      assert "" + value == value;
      assert [quote][1..] == [];
  }

  /** A written argument and a blank add one argument. */
  lemma ScanArgThenBlank(s: Scan, style: Style, value: string, rest: string)
    requires s.quote.None? && !s.escaped && !s.tokenOpen && s.token == "" && Writable(style, value)
    ensures ScanAll(s, Write(style, value) + " " + rest) == ScanAll(s.(args := s.args + [value]), rest)
  {
    var first := Write(style, value);
    ScanWritten(s, style, value);
    ScanConcat(s, first, " " + rest);
    assert first + " " + rest == first + (" " + rest);
    assert (" " + rest)[1..] == rest;
  }

  lemma ValuesFirst(before: seq<string>, args: seq<Arg>)
    requires args != []
    ensures before + [args[0].value] + Values(args[1..]) == before + Values(args)
  {
    assert Values(args) == [args[0].value] + Values(args[1..]);
  }

  lemma ScanLastArg(s: Scan, args: seq<Arg>)
    requires s.quote.None? && !s.escaped && !s.tokenOpen && s.token == "" && AllWritable(args) && |args| == 1
    ensures Finish(ScanAll(s, WriteArgs(args))) == Some(s.args + Values(args))
  {
    ScanWritten(s, args[0].style, args[0].value);
    assert Values(args) == [args[0].value];
  }

  lemma {:induction false} ScanWrittenArgs(s: Scan, args: seq<Arg>)
    requires s.quote.None? && !s.escaped && !s.tokenOpen && s.token == "" && AllWritable(args)
    ensures Finish(ScanAll(s, WriteArgs(args))) == Some(s.args + Values(args))
    decreases |args|
  {
    if args == [] {
      assert s.args + Values(args) == s.args;
    } else if |args| == 1 {
      ScanLastArg(s, args);
    } else {
      ScanArgThenBlank(s, args[0].style, args[0].value, WriteArgs(args[1..]));
      ScanWrittenArgs(s.(args := s.args + [args[0].value]), args[1..]);
      ValuesFirst(s.args, args);
    }
  }

  /** Splitting written arguments gives their values back, empty ones included. */
  lemma SplitWrittenArgs(args: seq<Arg>)
    requires AllWritable(args)
    ensures SplitArgs(WriteArgs(args)) == Some(Values(args))
  {
    ScanWrittenArgs(START, args);
    assert [] + Values(args) == Values(args);
  }

  // ---------- whole lines ----------

  function Lower(lower: char -> char, s: string): (r: string)
    ensures |r| == |s|
  {
    seq(|s|, i requires 0 <= i < |s| => lower(s[i]))
  }

  function NormaliseName(lower: char -> char, name: string): string {
    Lower(lower, TrimSpace(TrimSlash(name)))
  }

  function LabelEnd(line: string): (n: nat)
    ensures n <= |line|
  {
    if line == [] || IsBlank(line[0]) then 0 else 1 + LabelEnd(line[1..])
  }

  datatype Line = Line(name: string, args: seq<string>, rawArgs: string) | Unterminated

  function ParseLine(lower: char -> char, line: string): Line {
    var text := TrimSpace(TrimSlash(TrimSpace(line)));
    if text == [] then Line("", [], "")
    else
      var end := LabelEnd(text);
      var rawArgs := TrimSpace(text[end..]);
      match SplitArgs(rawArgs)
      case None => Unterminated
      case Some(args) => Line(NormaliseName(lower, text[..end]), args, rawArgs)
  }

  /** A label of which normalisation only changes the case. */
  predicate IsLabel(name: string) {
    && name != [] && name[0] != '/'
    && !IsSpace(name[0]) && !IsSpace(name[|name| - 1])
    && forall i :: 0 <= i < |name| ==> !IsBlank(name[i])
  }

  /** The part of a written line after its label. */
  function WriteRest(args: seq<Arg>): string {
    if args == [] then "" else " " + WriteArgs(args)
  }

  function WriteLine(slash: bool, name: string, args: seq<Arg>): string {
    (if slash then "/" else "") + (name + WriteRest(args))
  }

  /** Neither end is white space. */
  predicate Tight(s: string) {
    s != [] && !IsSpace(s[0]) && !IsSpace(s[|s| - 1])
  }

  /** White space other than blanks may stand inside of bare arguments, but not at the two ends of the line. */
  predicate TightEnds(args: seq<Arg>) {
    args != [] ==>
      && (args[0].style.Bare? ==> args[0].value != [] && !IsSpace(args[0].value[0]))
      && (args[|args| - 1].style.Bare? ==>
            var last := args[|args| - 1].value;
            last != [] && !IsSpace(last[|last| - 1]))
  }

  lemma TrimTight(s: string)
    requires Tight(s)
    ensures TrimSpace(s) == s
    ensures TrimSpace(" " + s) == s
  {
  }

  function Last(s: string): char
    requires s != []
  {
    s[|s| - 1]
  }

  lemma {:induction false} WrittenArgsEnds(args: seq<Arg>)
    requires args != [] && AllWritable(args)
    ensures var first, last, text := args[0], args[|args| - 1], WriteArgs(args);
            && Write(first.style, first.value) != [] && Write(last.style, last.value) != [] && text != []
            && text[0] == Write(first.style, first.value)[0] && Last(text) == Last(Write(last.style, last.value))
    decreases |args|
  {
    var first := Write(args[0].style, args[0].value);
    assert Writable(args[0].style, args[0].value);
    if |args| > 1 {
      WrittenArgsEnds(args[1..]);
      EndsOfConcat(first, WriteArgs(args[1..]));
    }
  }

  lemma EndsOfConcat(a: string, b: string)
    requires a != [] && b != []
    ensures (a + " " + b)[0] == a[0] && Last(a + " " + b) == Last(b)
  {
  }

  lemma WrittenArgsAreTight(args: seq<Arg>)
    requires args != [] && AllWritable(args) && TightEnds(args)
    ensures Tight(WriteArgs(args))
  {
    WrittenArgsEnds(args);
  }

  lemma TrimWrittenRest(args: seq<Arg>)
    requires AllWritable(args) && TightEnds(args)
    ensures TrimSpace(WriteRest(args)) == WriteArgs(args)
  {
    if args != [] {
      WrittenArgsAreTight(args);
      TrimTight(WriteArgs(args));
    }
  }

  lemma WrittenTextIsTight(name: string, args: seq<Arg>)
    requires Tight(name) && AllWritable(args) && TightEnds(args)
    ensures Tight(name + WriteRest(args)) && (name + WriteRest(args))[0] == name[0]
  {
    if args == [] {
      assert name + WriteRest(args) == name;
    } else {
      WrittenArgsAreTight(args);
      assert name + WriteRest(args) == name + " " + WriteArgs(args);
      EndsOfConcat(name, WriteArgs(args));
    }
  }

  lemma {:induction false} LabelEndIs(name: string, rest: string)
    requires forall i :: 0 <= i < |name| ==> !IsBlank(name[i])
    requires rest == [] || IsBlank(rest[0])
    ensures LabelEnd(name + rest) == |name|
    decreases |name|
  {
    if name == [] {
      assert name + rest == rest;
    } else {
      assert (name + rest)[1..] == name[1..] + rest;
      LabelEndIs(name[1..], rest);
    }
  }

  lemma LabelIsLowered(lower: char -> char, name: string)
    requires IsLabel(name)
    ensures NormaliseName(lower, name) == Lower(lower, name)
  {
  }

  lemma TrimWrittenLine(slash: bool, text: string)
    requires Tight(text) && text[0] != '/'
    ensures TrimSpace(TrimSlash(TrimSpace((if slash then "/" else "") + text))) == text
  {
  }

  /**
   Parsing a written line, with or without a leading slash, gives the label in lower case and
   exactly the arguments back, however each of them was written.
   */
  lemma LineRoundTrip(lower: char -> char, slash: bool, name: string, args: seq<Arg>)
    requires IsLabel(name) && AllWritable(args) && TightEnds(args)
    ensures var parsed := ParseLine(lower, WriteLine(slash, name, args));
            && parsed.Line? && parsed.args == Values(args) && parsed.rawArgs == WriteArgs(args)
            && |parsed.name| == |name| && forall i :: 0 <= i < |name| ==> parsed.name[i] == lower(name[i])
  {
    var text := name + WriteRest(args);
    WrittenTextIsTight(name, args);
    TrimWrittenLine(slash, text);
    ParseWrittenText(lower, WriteLine(slash, name, args), name, args);
    LabelIsLowered(lower, name);
  }

  lemma ParseWrittenText(lower: char -> char, line: string, name: string, args: seq<Arg>)
    requires name != [] && (forall i :: 0 <= i < |name| ==> !IsBlank(name[i])) && AllWritable(args) && TightEnds(args)
    requires TrimSpace(TrimSlash(TrimSpace(line))) == name + WriteRest(args)
    ensures ParseLine(lower, line) == Line(NormaliseName(lower, name), Values(args), WriteArgs(args))
  {
    var text := name + WriteRest(args);
    LabelEndIs(name, WriteRest(args));
    assert text[..|name|] == name && text[|name|..] == WriteRest(args);
    TrimWrittenRest(args);
    SplitWrittenArgs(args);
  }

  /** A line without a label has no arguments; any other line fails exactly when its quotes are not closed. */
  lemma ParseFailsIff(lower: char -> char, line: string)
    ensures var text := TrimSpace(TrimSlash(TrimSpace(line)));
            && (text == [] ==> ParseLine(lower, line) == Line("", [], ""))
            && (ParseLine(lower, line).Unterminated? <==> text != [] && !Balanced(TrimSpace(text[LabelEnd(text)..])))
  {
    var text := TrimSpace(TrimSlash(TrimSpace(line)));
    SucceedsIffBalanced(TrimSpace(text[LabelEnd(text)..]));
  }

  /** Trimming takes white space from both ends, and no more. */
  lemma {:induction false} TrimIs(s: string) returns (i: nat, j: nat)
    ensures i <= j <= |s| && TrimSpace(s) == s[i..j]
    ensures forall k :: 0 <= k < i || j <= k < |s| ==> IsSpace(s[k])
    ensures TrimSpace(s) == [] || Tight(TrimSpace(s))
  {
    i := TrimLeftIs(s);
    var n := TrimRightIs(TrimLeft(s));
    j := i + n;
    assert s[i..][..n] == s[i..j];
    forall k | j <= k < |s|
      ensures IsSpace(s[k])
    {
      assert s[i..][k - i] == s[k];
    }
  }

  lemma {:induction false} TrimLeftIs(s: string) returns (i: nat)
    ensures i <= |s| && TrimLeft(s) == s[i..]
    ensures (forall k :: 0 <= k < i ==> IsSpace(s[k])) && (i < |s| ==> !IsSpace(s[i]))
    decreases |s|
  {
    if s != [] && IsSpace(s[0]) {
      i := TrimLeftIs(s[1..]);
      i := i + 1;
    } else {
      i := 0;
    }
  }

  lemma {:induction false} TrimRightIs(s: string) returns (n: nat)
    ensures n <= |s| && TrimRight(s) == s[..n]
    ensures (forall k :: n <= k < |s| ==> IsSpace(s[k])) && (n > 0 ==> !IsSpace(s[n - 1]))
    decreases |s|
  {
    if s != [] && IsSpace(s[|s| - 1]) {
      n := TrimRightIs(s[..|s| - 1]);
    } else {
      n := |s|;
    }
  }

  /** One more slash before the label does not matter: the label is stripped of it, too. */
  lemma SecondSlashIsStripped(lower: char -> char, line: string, slashed: string, word: string, name: string,
                              args: seq<Arg>)
    requires IsLabel(name) && AllWritable(args) && TightEnds(args)
    requires word == ['/'] + name && slashed == word + WriteRest(args) && line == ['/'] + slashed
    ensures ParseLine(lower, line) == Line(Lower(lower, name), Values(args), WriteArgs(args))
  {
    SlashedIsTight(slashed, word, name, args);
    TrimSlashed(line, slashed);
    ParseWrittenText(lower, line, word, args);
    SlashIsStripped(lower, word, name);
  }

  lemma SlashedIsTight(slashed: string, word: string, name: string, args: seq<Arg>)
    requires IsLabel(name) && AllWritable(args) && TightEnds(args)
    requires word == ['/'] + name && slashed == word + WriteRest(args)
    ensures Tight(slashed)
  {
    assert Tight(word);
    WrittenTextIsTight(word, args);
  }

  lemma TrimSlashed(line: string, text: string)
    requires Tight(text) && line == ['/'] + text
    ensures TrimSpace(TrimSlash(TrimSpace(line))) == text
  {
    TrimTight(line);
    assert line[1..] == text;
    TrimTight(text);
  }

  lemma SlashIsStripped(lower: char -> char, word: string, name: string)
    requires IsLabel(name) && word == ['/'] + name
    ensures NormaliseName(lower, word) == Lower(lower, name)
  {
    assert word[1..] == name;
    TrimTight(name);
  }
}
