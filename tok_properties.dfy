/**
  Properties of the tokenizer: the classifier tables, the EOF loop over `Tok`,
  the refine functions `Words` and `Bib` run through `Tok2`, and what the
  map relabelling does and does not determine.
 */
module TokProperties {
  import opened Bytes
  import opened Tok

  // ---------------------------------------------------------------------
  // Classifier tables

  /** The three shipped tables share no byte, so the classification order
      never matters for them. */
  lemma TablesDisjoint()
    ensures forall c: byte :: !(c in PunctuationMarks && c in Spaces)
    ensures forall c: byte :: !(c in PunctuationMarks && c in Numerals)
    ensures forall c: byte :: !(c in Spaces && c in Numerals)
  {
    forall c: byte {
      TablesAreAsciiClasses(c);
    }
  }

  /** With the shipped tables, each class is exactly its table, and Letter is
      exactly "in none of them". */
  lemma ClassifyExact(c: byte)
    ensures Classify(c) == Punctuation <==> c in PunctuationMarks
    ensures Classify(c) == Space <==> c in Spaces
    ensures Classify(c) == Numeral <==> c in Numerals
    ensures Classify(c) == Letter <==> c !in PunctuationMarks && c !in Spaces && c !in Numerals
  {
    TablesAreAsciiClasses(c);
  }

  /** No ASCII letter is punctuation or space; each classifies as a letter. */
  lemma AsciiLettersAreLetters(c: byte)
    requires 65 <= c <= 90 || 97 <= c <= 122
    ensures !IsPunctuation([c]) && !IsSpace([c])
    ensures Classify(c) == Letter
  {
    TablesAreAsciiClasses(c);
  }

  /** Every byte outside ASCII falls through to the letter class. */
  lemma NonAsciiIsLetter(c: byte)
    requires c >= 128
    ensures Classify(c) == Letter
  {
  }

  // ---------------------------------------------------------------------
  // Running Tok until EOF

  /** The bytes of a token stream, in order. */
  function Concat(toks: seq<Token>): (r: seq<byte>)
  {
    if toks == [] then [] else Concat(toks[..|toks| - 1]) + toks[|toks| - 1].Value
  }

  // Sequence facts the proofs below use, proved apart from the tokenizer so
  // that the solver meets them without the tokenizer's definitions around.

  lemma ConcatSnoc(toks: seq<Token>, t: Token)
    ensures Concat(toks + [t]) == Concat(toks) + t.Value
  {
    assert (toks + [t])[..|toks|] == toks;
  }

  lemma PrefixSnoc(s: seq<byte>, k: nat)
    requires k < |s|
    ensures s[..k + 1] == s[..k] + [s[k]]
    ensures s[k..][1..] == s[k + 1..]
  {
  }

  /** Calls `Tok` on what remains of the buffer until it signals EOF,
      collecting the tokens before the EOF one. There is one token per byte,
      each classifying its byte, the tokens spell the buffer, and nothing
      remains at the end. */
  method TokenizeAll(buf: seq<byte>) returns (toks: seq<Token>, rest: seq<byte>)
    ensures |toks| == |buf|
    ensures forall i :: 0 <= i < |toks| ==> toks[i] == Token(Classify(buf[i]), [buf[i]])
    ensures Concat(toks) == buf
    ensures rest == []
  {
    toks, rest := [], buf;
    var step := Tok.Tok(rest);
    while step.0.Type != EOF
      invariant |toks| <= |buf| && rest == buf[|toks|..]
      invariant forall i :: 0 <= i < |toks| ==> toks[i] == Token(Classify(buf[i]), [buf[i]])
      invariant Concat(toks) == buf[..|toks|]
      invariant step == Tok.Tok(rest)
      decreases |rest|
    {
      TokSplits(rest);
      PrefixSnoc(buf, |toks|);
      ConcatSnoc(toks, step.0);
      toks := toks + [step.0];
      rest := step.1;
      step := Tok.Tok(rest);
    }
    TokSplits(rest);
  }

  // ---------------------------------------------------------------------
  // Tok2

  /** The pass-through refine function. */
  function PassThrough(tok: Token, buf: seq<byte>): (r: (Token, seq<byte>))
  {
    (tok, buf)
  }

  /** `Tok2` with the pass-through refine function is `Tok`. */
  lemma Tok2PassThrough(buf: seq<byte>)
    ensures Tok2(buf, PassThrough) == Tok.Tok(buf)
  {
  }

  /** A letter run is unique: two results that both absorb the letter run of
      `buf` into `tok` are the same result. */
  lemma AbsorbsLetterRunUnique(tok: Token, buf: seq<byte>, merged: string,
                               r1: (Token, seq<byte>), r2: (Token, seq<byte>))
    requires AbsorbsLetterRun(tok, buf, merged, r1)
    requires AbsorbsLetterRun(tok, buf, merged, r2)
    ensures r1 == r2
  {
    var n1, n2 := |buf| - |r1.1|, |buf| - |r2.1|;
    if n1 < n2 {
      AllLettersAt(buf[..n2], n1);
      assert false;
    } else if n2 < n1 {
      AllLettersAt(buf[..n1], n2);
      assert false;
    }
  }

  /** Every byte of an all-letter slice is a letter. */
  lemma {:induction false} AllLettersAt(s: seq<byte>, i: nat)
    requires AllLetters(s) && i < |s|
    ensures Classify(s[i]) == Letter
  {
    if i > 0 {
      AllLettersAt(s[1..], i - 1);
    }
  }

  lemma AppendSplit(v: seq<byte>, s: seq<byte>, n: nat)
    requires n <= |s|
    ensures (v + s[..n]) + s[n..] == v + s
  {
    assert s[..n] + s[n..] == s;
  }

  /** `Words` never drops or reorders a byte: the token's value and the
      buffer come back as value and remainder, split later or at the same
      place, and the type is either kept or becomes Word. */
  lemma WordsKeepsBytes(tok: Token, buf: seq<byte>)
    ensures Words(tok, buf).0.Value + Words(tok, buf).1 == tok.Value + buf
    ensures |Words(tok, buf).1| <= |buf|
    ensures Words(tok, buf).0.Type == tok.Type || Words(tok, buf).0.Type == Word
  {
    if IsWordLike(tok.Type) {
      AbsorbKeepsBytes(tok, buf, Word, Words(tok, buf));
    }
  }

  /** Absorbing a letter run moves bytes from the front of the buffer to the
      end of the value, and retypes the token as `merged` or not at all. */
  lemma AbsorbKeepsBytes(tok: Token, buf: seq<byte>, merged: string, r: (Token, seq<byte>))
    requires AbsorbsLetterRun(tok, buf, merged, r)
    ensures r.0.Value + r.1 == tok.Value + buf
    ensures |r.1| <= |buf|
    ensures r.0.Type == tok.Type || r.0.Type == merged
  {
    AppendSplit(tok.Value, buf, |buf| - |r.1|);
  }

  /** Through `Tok2`, `Words` splits the buffer into the token's value and the
      remainder, takes at least one byte of a non-empty buffer, and signals
      EOF only on the empty one. */
  lemma Tok2WordsSplits(buf: seq<byte>)
    ensures Tok2(buf, Words).0.Value + Tok2(buf, Words).1 == buf
    ensures buf != [] ==> |Tok2(buf, Words).1| < |buf| && Tok2(buf, Words).0.Value != []
    ensures Tok2(buf, Words).0.Type == EOF <==> buf == []
  {
    TokSplits(buf);
    WordsKeepsBytes(Tok.Tok(buf).0, Tok.Tok(buf).1);
  }

  /** `r` holds the longest run of letters at the front of `buf` as one
      token, typed Word when the run has two bytes or more and Letter when it
      has one, with the rest of the buffer after it. */
  ghost predicate LeadingWord(buf: seq<byte>, r: (Token, seq<byte>))
  {
    var n := |buf| - |r.1|;
    && 1 <= n && r.1 == buf[n..] && r.0.Value == buf[..n]
    && AllLetters(buf[..n])
    && (n < |buf| ==> Classify(buf[n]) != Letter)
    && r.0.Type == (if n == 1 then Letter else Word)
  }

  /** A single letter followed by the letter run after it is the leading
      word. */
  lemma {:induction false} LetterThenRun(buf: seq<byte>, r: (Token, seq<byte>))
    requires buf != [] && Classify(buf[0]) == Letter
    requires AbsorbsLetterRun(Token(Letter, [buf[0]]), buf[1..], Word, r)
    ensures LeadingWord(buf, r)
  {
    ConsPrefix(buf, |buf| - 1 - |r.1|);
  }

  lemma ConsPrefix(s: seq<byte>, m: nat)
    requires m < |s|
    ensures s[..m + 1] == [s[0]] + s[1..][..m]
    ensures s[..m + 1][1..] == s[1..][..m]
    ensures s[1..][m..] == s[m + 1..]
  {
  }

  /** A letter at the front of the buffer starts a word: through `Tok2`,
      `Words` returns the leading word and leaves the first non-letter in
      the buffer. */
  lemma Tok2WordsLongestRun(buf: seq<byte>)
    requires buf != [] && Classify(buf[0]) == Letter
    ensures LeadingWord(buf, Tok2(buf, Words))
  {
    LetterThenRun(buf, Tok2(buf, Words));
  }

  /** The leading word of "abc 1" is "abc". */
  lemma LeadingWordExample(r: (Token, seq<byte>))
    requires LeadingWord([97, 98, 99, 32, 49], r)
    ensures r == (Token(Word, [97, 98, 99]), [32, 49])
  {
    var buf: seq<byte> := [97, 98, 99, 32, 49];
    var n := |buf| - |r.1|;
    if n > 3 {
      AllLettersAt(buf[..n], 3);
      assert false;
    }
    assert buf[..3] == [97, 98, 99] && buf[3..] == [32, 49];
  }

  /** "abc 1": `Words` merges "abc" into one Word and leaves " 1". */
  lemma WordsExample()
    ensures Tok2([97, 98, 99, 32, 49], Words) == (Token(Word, [97, 98, 99]), [32, 49])
  {
    Tok2WordsLongestRun([97, 98, 99, 32, 49]);
    LeadingWordExample(Tok2([97, 98, 99, 32, 49], Words));
  }

  // ---------------------------------------------------------------------
  // TokenFromMap

  /** All keys of a set, each once, in some order. */
  ghost function Enumerate(keys: set<string>): (order: seq<string>)
    ensures forall k :: k in keys <==> k in order
    ensures forall i, j :: 0 <= i < j < |order| ==> order[i] != order[j]
    decreases keys
  {
    if keys == {} then
      []
    else
      var k :| k in keys;
      [k] + Enumerate(keys - {k})
  }

  /** The relabelling is genuinely open: every key whose bytes contain the
      token's value is the outcome of some iteration order. */
  lemma EveryMatchIsReachable(t: Token, m: TokenMap, k: string)
    requires k in m && Contains(m[k], t.Value)
    ensures exists order :: IsIterationOrder(order, m) && TokenFromMap(t, m, order) == Token(k, t.Value)
  {
    var others := Enumerate(m.Keys - {k});
    assert forall i :: 0 <= i < |others| ==> others[i] in m.Keys - {k};
    var order := [k] + others;
    assert forall i :: 1 <= i < |order| ==> order[i] == others[i - 1];
    assert IsIterationOrder(order, m);
    assert TokenFromMap(t, m, order) == Token(k, t.Value);
  }

  /** When at most one key matches, the iteration order does not matter. */
  lemma TokenFromMapOrderIrrelevant(t: Token, m: TokenMap, o1: seq<string>, o2: seq<string>)
    requires IsIterationOrder(o1, m) && IsIterationOrder(o2, m)
    requires forall k1, k2 :: k1 in m && k2 in m && Contains(m[k1], t.Value) && Contains(m[k2], t.Value) ==> k1 == k2
    ensures TokenFromMap(t, m, o1) == TokenFromMap(t, m, o2)
  {
  }

  // ---------------------------------------------------------------------
  // Bib

  /** What relabelling through `BibMarks` gives a one-byte value: the name of
      the structural character, or `otherwise`. */
  function StructuralType(c: byte, otherwise: string): (r: string)
  {
    if c == 123 then OpenCurlyBracket
    else if c == 125 then CloseCurlyBracket
    else if c == 64 then AtSign
    else if c == 61 then EqualSign
    else if c == 34 then DoubleQuote
    else if c == 39 then SingleQuote
    else if c == 44 then Comma
    else otherwise
  }

  /** `Bib`'s relabelling map pairs each of the seven structural bytes with
      its name, and nothing else: every entry is one byte named by its key,
      and every structural byte has its entry. All seven are punctuation, so
      only punctuation tokens (and the empty EOF value) can be relabelled. */
  lemma BibMarksAreStructural()
    ensures forall k :: k in BibMarks ==>
              |BibMarks[k]| == 1 && StructuralType(BibMarks[k][0], EOF) == k
    ensures forall c: byte :: StructuralType(c, EOF) != EOF ==>
              StructuralType(c, EOF) in BibMarks && BibMarks[StructuralType(c, EOF)] == [c]
    ensures forall k :: k in BibMarks ==> Classify(BibMarks[k][0]) == Punctuation
  {
    forall k | k in BibMarks
      ensures |BibMarks[k]| == 1 && StructuralType(BibMarks[k][0], EOF) == k
      ensures Classify(BibMarks[k][0]) == Punctuation
    {
    }
  }

  /** For a one-byte value the relabelling through `BibMarks` is determined,
      whatever the iteration order: each entry holds one byte, so at most one
      entry matches. */
  lemma BibMarksOneByte(t: Token, r: Token)
    requires |t.Value| == 1 && Relabels(t, BibMarks, r)
    ensures r == Token(StructuralType(t.Value[0], t.Type), t.Value)
  {
    var c := t.Value[0];
    forall k | k in BibMarks
      ensures Contains(BibMarks[k], t.Value) <==> BibMarks[k] == [c]
    {
      ContainsShortNeedle(BibMarks[k], t.Value);
    }
    if AnyMatch(BibMarks, t.Value) {
      assert BibMarks[r.Type] == [c];
    } else {
      assert BibMarks[OpenCurlyBracket] != [c] && BibMarks[CloseCurlyBracket] != [c];
      assert BibMarks[AtSign] != [c] && BibMarks[EqualSign] != [c];
      assert BibMarks[DoubleQuote] != [c] && BibMarks[SingleQuote] != [c];
      assert BibMarks[Comma] != [c];
    }
  }

  /** `Bib` on a one-byte token of any type outside its two merge branches
      relabels the structural characters and consumes nothing. */
  lemma BibRelabelsOneByte(tok: Token, buf: seq<byte>, order: seq<string>)
    requires IsIterationOrder(order, BibMarks)
    requires !IsElementStart(tok.Type) && !IsWordLike(tok.Type) && |tok.Value| == 1
    ensures Bib(tok, buf, order) == (Token(StructuralType(tok.Value[0], tok.Type), tok.Value), buf)
  {
    BibMarksOneByte(tok, Bib(tok, buf, order).0);
  }

  /** The Letter/Word branch of `Bib` is `Words`. */
  lemma BibWordBranchIsWords(tok: Token, buf: seq<byte>, order: seq<string>)
    requires IsIterationOrder(order, BibMarks)
    requires IsWordLike(tok.Type)
    ensures Bib(tok, buf, order) == Words(tok, buf)
  {
  }

  /** `Tok` never emits AtSign ("@" is punctuation), so through `Tok2` an "@"
      only reaches the relabelling branch of `Bib`: it becomes an AtSign token
      and nothing after it is absorbed. */
  lemma Tok2BibAtSign(buf: seq<byte>, order: seq<string>)
    requires IsIterationOrder(order, BibMarks)
    requires buf != [] && buf[0] == 64
    ensures Tok2(buf, BibTokenizer(order)) == (Token(AtSign, [64]), buf[1..])
  {
    assert Classify(64) == Punctuation;
    BibRelabelsOneByte(Token(Punctuation, [64]), buf[1..], order);
  }

  /** Through `Tok2`, `Bib` never produces a BibElement token. */
  lemma Tok2BibNoElement(buf: seq<byte>, order: seq<string>)
    requires IsIterationOrder(order, BibMarks)
    ensures Tok2(buf, BibTokenizer(order)).0.Type != BibElement
  {
    var (t, rest) := Tok.Tok(buf);
    assert t.Type in {EOF, Punctuation, Space, Numeral, Letter};
    BibElementIsNoMark();
    assert Tok2(buf, BibTokenizer(order)) == Bib(t, rest, order);
  }

  /** BibElement is no relabelling key, and none of the types `Tok` emits
      opens an element. */
  lemma BibElementIsNoMark()
    ensures BibElement !in BibMarks
    ensures !IsElementStart(EOF) && !IsElementStart(Punctuation) && !IsElementStart(Space)
    ensures !IsElementStart(Numeral) && !IsElementStart(Letter)
  {
  }

  /** At the end of the input `Bib` loses the EOF type: the empty value is
      contained in every entry of `BibMarks`, so the EOF token is relabelled
      to one of its keys. */
  lemma Tok2BibAtEnd(order: seq<string>)
    requires IsIterationOrder(order, BibMarks)
    ensures var (t, rest) := Tok2([], BibTokenizer(order));
            t.Type in BibMarks && t.Type != EOF && t.Value == [] && rest == []
  {
    ContainsShortNeedle(BibMarks[Comma], []);
    assert AnyMatch(BibMarks, []);
  }
}
