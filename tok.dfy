/**
  The tok package: a naive tokenizer that classifies one byte at a time and
  lets callers build longer tokens by looking ahead with a refine function.

  Tokens are values here. The Go code hands tokens around as `*Token`; the
  in-place updates that `Words` and `Bib` make through that pointer are
  modelled in module TokenPointers, against the functions of this module.
 */
module Tok {
  import opened Bytes

  // Token type names. The Go type field is a free-form string: refine
  // functions and relabelling maps introduce names of their own.
  const Letter: string := "Letter"
  const Numeral: string := "Numeral"
  const Punctuation: string := "Punctuation"
  const Space: string := "Space"
  const Word: string := "Word"
  const OpenCurlyBracket: string := "OpenCurlyBracket"
  const CloseCurlyBracket: string := "CloseCurlyBracket"
  const CurlyBracket: string := "CurlyBracket"
  const OpenSquareBracket: string := "OpenSquareBracket"
  const CloseSquareBracket: string := "CloseSquareBracket"
  const SquareBracket: string := "SquareBracket"
  const OpenAngleBracket: string := "OpenAngleBracket"
  const CloseAngleBracket: string := "CloseAngleBracket"
  const AngleBracket: string := "AngleBracket"
  const AtSign: string := "AtSign"
  const EqualSign: string := "EqualSign"
  const DoubleQuote: string := "DoubleQuote"
  const SingleQuote: string := "SingleQuote"
  const EOF: string := "EOF"
  /** Names that only `Bib` uses, written there as literals. */
  const BibElement: string := "BibElement"
  const Comma: string := "Comma"

  // Classifier tables, as byte values.

  /** "0123456789" */
  const Numerals: seq<byte> := [48, 49, 50, 51, 52, 53, 54, 55, 56, 57]
  /** " \t\r\n" */
  const Spaces: seq<byte> := [32, 9, 13, 10]
  /** "~!@#$%^&*()_+`-=:{}|[]\\:;\"'<>?,./" (the colon is listed twice) */
  const PunctuationMarks: seq<byte> :=
    [126, 33, 64, 35, 36, 37, 94, 38, 42, 40, 41, 95, 43, 96, 45, 61, 58,
     123, 125, 124, 91, 93, 92, 58, 59, 34, 39, 60, 62, 63, 44, 46, 47]

  // Tables for the specialised token types.

  /** "@" */
  const AtSignMark: seq<byte> := [64]
  /** "=" */
  const EqualMark: seq<byte> := [61]
  /** "\"" */
  const DoubleQuoteMark: seq<byte> := [34]
  /** "'" */
  const SingleQuoteMark: seq<byte> := [39]
  /** "{" */
  const OpenCurlyBrackets: seq<byte> := [123]
  /** "}" */
  const CloseCurlyBrackets: seq<byte> := [125]
  /** "{}" */
  const CurlyBrackets: seq<byte> := [123, 125]
  /** "[" */
  const OpenSquareBrackets: seq<byte> := [91]
  /** "]" */
  const CloseSquareBrackets: seq<byte> := [93]
  /** "[]" */
  const SquareBrackets: seq<byte> := [91, 93]
  /** "<" */
  const OpenAngleBrackets: seq<byte> := [60]
  /** ">" */
  const CloseAngleBrackets: seq<byte> := [62]
  /** "<>" */
  const AngleBrackets: seq<byte> := [60, 62]

  /** A token: its type name and the bytes it matched. */
  datatype Token = Token(Type: string, Value: seq<byte>)

  /** Type names mapped to the bytes that carry that type. */
  type TokenMap = map<string, seq<byte>>

  /** A refine function: takes the current token and the rest of the buffer,
      returns a revised token and what remains of the buffer. */
  type Tokenizer = (Token, seq<byte>) -> (Token, seq<byte>)

  // ---------------------------------------------------------------------
  // Classifier

  /** Whether `b` is a space. A one-byte slice is a space when its byte is in
      `Spaces`; the empty slice always counts as one. */
  function IsSpace(b: seq<byte>): (r: bool)
    ensures b == [] ==> r
    ensures |b| == 1 ==> (r <==> b[0] in Spaces)
  {
    ContainsShortNeedle(Spaces, b);
    Contains(Spaces, b)
  }

  /** Whether `b` is punctuation, in the same sense as `IsSpace`. */
  function IsPunctuation(b: seq<byte>): (r: bool)
    ensures b == [] ==> r
    ensures |b| == 1 ==> (r <==> b[0] in PunctuationMarks)
  {
    ContainsShortNeedle(PunctuationMarks, b);
    Contains(PunctuationMarks, b)
  }

  /** Whether `b` is a numeral, in the same sense as `IsSpace`. */
  function IsNumeral(b: seq<byte>): (r: bool)
    ensures b == [] ==> r
    ensures |b| == 1 ==> (r <==> b[0] in Numerals)
  {
    ContainsShortNeedle(Numerals, b);
    Contains(Numerals, b)
  }

  /** Whether `b` belongs to the class given by the table `typeMap`. */
  function IsTypeOf(b: seq<byte>, typeMap: seq<byte>): (r: bool)
    ensures b == [] ==> r
    ensures |b| == 1 ==> (r <==> b[0] in typeMap)
    ensures |b| > |typeMap| ==> !r
  {
    ContainsShortNeedle(typeMap, b);
    Contains(typeMap, b)
  }

  /** The printable ASCII bytes that are neither letters nor digits. */
  predicate IsAsciiPunctuation(c: byte)
  {
    33 <= c <= 47 || 58 <= c <= 64 || 91 <= c <= 96 || 123 <= c <= 126
  }

  /** Tab, line feed, carriage return and space. */
  predicate IsAsciiSpace(c: byte)
  {
    c == 9 || c == 10 || c == 13 || c == 32
  }

  /** The ASCII digits. */
  predicate IsAsciiDigit(c: byte)
  {
    48 <= c <= 57
  }

  /** Reference classification of a single byte, by ASCII range, in the
      tokenizer's order: punctuation, then space, then numeral; every other
      byte (ASCII letters, other control bytes, non-ASCII bytes) is a
      letter. */
  function Classify(c: byte): (r: string)
  {
    if IsAsciiPunctuation(c) then Punctuation
    else if IsAsciiSpace(c) then Space
    else if IsAsciiDigit(c) then Numeral
    else Letter
  }

  /** The shipped tables are exactly those ASCII ranges. */
  lemma TablesAreAsciiClasses(c: byte)
    ensures c in PunctuationMarks <==> IsAsciiPunctuation(c)
    ensures c in Spaces <==> IsAsciiSpace(c)
    ensures c in Numerals <==> IsAsciiDigit(c)
  {
  }

  // ---------------------------------------------------------------------
  // Base tokenizer

  /** Shifts one byte off `buf` and classifies it. An empty buffer yields the
      EOF token with an empty value and an empty remainder (Go returns a nil
      slice, which has length 0 like the empty one). */
  function Tok(buf: seq<byte>): (r: (Token, seq<byte>))
    ensures buf == [] ==> r == (Token(EOF, []), [])
    ensures buf != [] ==> r.0 == Token(Classify(buf[0]), [buf[0]]) && r.1 == buf[1..]
  {
    if |buf| == 0 then
      (Token(EOF, []), [])
    else
      var s, rest := buf[0..1], buf[1..];
      assert s == [buf[0]];
      TablesAreAsciiClasses(buf[0]);
      if IsPunctuation(s) then (Token(Punctuation, s), rest)
      else if IsSpace(s) then (Token(Space, s), rest)
      else if IsNumeral(s) then (Token(Numeral, s), rest)
      else (Token(Letter, s), rest)
  }

  /** `Tok` splits `buf` into the token's value and the remainder, and
      signals EOF exactly when there is nothing left to split. */
  lemma TokSplits(buf: seq<byte>)
    ensures Tok(buf).0.Value + Tok(buf).1 == buf
    ensures Tok(buf).0.Type == EOF <==> buf == []
    ensures buf != [] ==> |Tok(buf).1| == |buf| - 1
  {
    if buf != [] {
      assert [buf[0]] + buf[1..] == buf;
      assert Classify(buf[0]) != EOF;
    }
  }

  /** Runs `Tok` once and hands its token and remainder to `fn`. */
  function Tok2(buf: seq<byte>, fn: Tokenizer): (r: (Token, seq<byte>))
    ensures buf == [] ==> r == fn(Token(EOF, []), [])
    ensures buf != [] ==> r == fn(Token(Classify(buf[0]), [buf[0]]), buf[1..])
  {
    var (tok, rest) := Tok(buf);
    fn(tok, rest)
  }

  // ---------------------------------------------------------------------
  // Relabelling by map

  /** `order` lists the keys of `m`, each once: one possible order in which
      Go's `range` visits a map. Go leaves that order unspecified, so the
      model takes it as a parameter. */
  predicate IsIterationOrder(order: seq<string>, m: TokenMap)
  {
    && (forall k :: k in m ==> k in order)
    && (forall i :: 0 <= i < |order| ==> order[i] in m)
    && (forall i, j :: 0 <= i < j < |order| ==> order[i] != order[j])
  }

  /** Some entry of `m` has bytes that contain `value`. */
  ghost predicate AnyMatch(m: TokenMap, value: seq<byte>)
  {
    exists k :: k in m && Contains(m[k], value)
  }

  /** What `TokenFromMap` promises whatever the iteration order: the value is
      kept; the type becomes a key whose bytes contain the value if any key
      has such bytes, and is kept otherwise. */
  ghost predicate Relabels(t: Token, m: TokenMap, r: Token)
  {
    && r.Value == t.Value
    && (AnyMatch(m, t.Value) ==> r.Type in m && Contains(m[r.Type], t.Value))
    && (!AnyMatch(m, t.Value) ==> r.Type == t.Type)
  }

  /** The `range` loop of `TokenFromMap` over the keys still to visit. */
  function ScanKeys(t: Token, m: TokenMap, keys: seq<string>): (r: Token)
    requires forall i :: 0 <= i < |keys| ==> keys[i] in m
    ensures r.Value == t.Value
    ensures (exists i :: 0 <= i < |keys| && Contains(m[keys[i]], t.Value)) ==>
              exists i :: && 0 <= i < |keys| && keys[i] == r.Type && Contains(m[keys[i]], t.Value)
                          && forall j :: 0 <= j < i ==> !Contains(m[keys[j]], t.Value)
    ensures (forall i :: 0 <= i < |keys| ==> !Contains(m[keys[i]], t.Value)) ==>
              r.Type == t.Type
  {
    if keys == [] then
      Token(t.Type, t.Value)
    else if Contains(m[keys[0]], t.Value) then
      Token(keys[0], t.Value)
    else
      ScanKeys(t, m, keys[1..])
  }

  /** Relabels `t` by the first entry, in iteration order `order`, whose bytes
      contain the token's value. Always returns a new token. */
  function TokenFromMap(t: Token, m: TokenMap, order: seq<string>): (r: Token)
    requires IsIterationOrder(order, m)
    ensures Relabels(t, m, r)
  {
    ScanKeys(t, m, order)
  }

  // ---------------------------------------------------------------------
  // Refine functions

  /** Every byte of `s` classifies as a letter. */
  ghost predicate AllLetters(s: seq<byte>)
    decreases |s|
  {
    s == [] || (Classify(s[0]) == Letter && AllLetters(s[1..]))
  }

  /** `r` is `tok` extended by the longest run of letter bytes at the front of
      `buf`: the run is appended to the value and removed from the buffer, the
      first byte after it stays in the buffer, and the type becomes `merged`
      when at least one byte was absorbed. */
  ghost predicate AbsorbsLetterRun(tok: Token, buf: seq<byte>, merged: string, r: (Token, seq<byte>))
  {
    var n := |buf| - |r.1|;
    && 0 <= n
    && r.1 == buf[n..]
    && r.0.Value == tok.Value + buf[..n]
    && AllLetters(buf[..n])
    && (n < |buf| ==> Classify(buf[n]) != Letter)
    && r.0.Type == (if n == 0 then tok.Type else merged)
  }

  /** One step of the merge: absorbing the letter `buf[0]` and then the run
      after it is absorbing the run of `buf`. */
  lemma {:induction false} AbsorbStep(tok: Token, buf: seq<byte>, merged: string, r: (Token, seq<byte>))
    requires buf != [] && Classify(buf[0]) == Letter
    requires AbsorbsLetterRun(Token(merged, tok.Value + [buf[0]]), buf[1..], merged, r)
    ensures AbsorbsLetterRun(tok, buf, merged, r)
  {
    var tail := buf[1..];
    var m := |tail| - |r.1|;
    var n := m + 1;
    assert r.1 == tail[m..] == buf[n..];
    assert buf[..n] == [buf[0]] + tail[..m];
    assert r.0.Value == tok.Value + buf[..n];
    assert buf[..n][1..] == tail[..m];
    if n < |buf| {
      assert buf[n] == tail[m];
    }
  }

  /** When the next byte is not a letter (or there is none), nothing is
      absorbed. */
  lemma AbsorbNothing(tok: Token, buf: seq<byte>, merged: string)
    requires buf == [] || Classify(buf[0]) != Letter
    ensures AbsorbsLetterRun(tok, buf, merged, (tok, buf))
  {
    assert buf[..0] == [];
  }

  /** The merge both refine functions share: peek at the next byte with
      `Tok`; while it is a letter, append it to the token's value, relabel the
      token `merged` and go on after it; at the first non-letter (or at EOF)
      return the token and the buffer as they stand, so that byte is not
      consumed. */
  function MergeLetters(tok: Token, buf: seq<byte>, merged: string): (r: (Token, seq<byte>))
    ensures AbsorbsLetterRun(tok, buf, merged, r)
    decreases |buf|
  {
    var (next, rest) := Tok(buf);
    if next.Type == Letter then
      var r := MergeLetters(Token(merged, tok.Value + [next.Value[0]]), rest, merged);
      AbsorbStep(tok, buf, merged, r);
      r
    else
      AbsorbNothing(tok, buf, merged);
      (tok, buf)
  }

  /** The letter-merging types of `Words`. */
  predicate IsWordLike(typ: string)
  {
    typ == Letter || typ == Word
  }

  /** Example refine function: a Letter or Word token absorbs the letters that
      follow it and becomes a Word; any other token is returned as it is.
      (The Go function recurses into itself with the relabelled token, which
      stays in the Letter-or-Word case: that recursion is `MergeLetters`.) */
  function Words(tok: Token, buf: seq<byte>): (r: (Token, seq<byte>))
    ensures IsWordLike(tok.Type) ==> AbsorbsLetterRun(tok, buf, Word, r)
    ensures !IsWordLike(tok.Type) ==> r == (tok, buf)
  {
    if IsWordLike(tok.Type) then MergeLetters(tok, buf, Word) else (tok, buf)
  }

  /** The types that open or continue a bibliography element in `Bib`. */
  predicate IsElementStart(typ: string)
  {
    typ == AtSign || typ == BibElement
  }

  /** The structural single characters `Bib` relabels. */
  const BibMarks: TokenMap := map[
    OpenCurlyBracket := OpenCurlyBrackets,
    CloseCurlyBracket := CloseCurlyBrackets,
    AtSign := AtSignMark,
    EqualSign := EqualMark,
    DoubleQuote := DoubleQuoteMark,
    SingleQuote := SingleQuoteMark,
    Comma := [44]]

  /** Example BibTeX refine function, its branches tried in order: an AtSign
      or BibElement token absorbs the following letters as a BibElement; a
      Letter or Word token absorbs them as a Word; any other token is
      relabelled through `BibMarks` and consumes nothing. `order` is the
      iteration order of the relabelling map. (As in `Words`, the Go
      recursion re-enters the branch it left, which `MergeLetters` is.) */
  function Bib(tok: Token, buf: seq<byte>, order: seq<string>): (r: (Token, seq<byte>))
    requires IsIterationOrder(order, BibMarks)
    ensures IsElementStart(tok.Type) ==> AbsorbsLetterRun(tok, buf, BibElement, r)
    ensures !IsElementStart(tok.Type) && IsWordLike(tok.Type) ==> AbsorbsLetterRun(tok, buf, Word, r)
    ensures !IsElementStart(tok.Type) && !IsWordLike(tok.Type) ==>
              r.1 == buf && Relabels(tok, BibMarks, r.0)
  {
    if IsElementStart(tok.Type) then
      MergeLetters(tok, buf, BibElement)
    else if IsWordLike(tok.Type) then
      MergeLetters(tok, buf, Word)
    else
      (TokenFromMap(tok, BibMarks, order), buf)
  }

  /** `Bib` as a refine function for `Tok2`, for one iteration order. */
  function BibTokenizer(order: seq<string>): (r: Tokenizer)
    requires IsIterationOrder(order, BibMarks)
  {
    (tok, buf) => Bib(tok, buf, order)
  }
}
