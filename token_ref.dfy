/**
  The refine functions as Go runs them: on a `*Token` that they update in
  place, looping (the Go code recurses in tail position) until the next
  byte is not a letter. Each method is proved to agree with the value-level
  function of the same name in module `Tok`, whose properties are proved
  there and in `TokProperties`.
 */
module TokenPointers {
  import opened Bytes
  import Tok

  /** Go's `*Token`: a token whose fields the refine functions overwrite. */
  class TokenRef {
    var Type: string
    var Value: seq<byte>

    constructor (t: Tok.Token)
      ensures Type == t.Type && Value == t.Value
    {
      Type := t.Type;
      Value := t.Value;
    }

    /** The token this reference currently holds. */
    function Get(): (t: Tok.Token)
      reads this
      ensures t.Type == Type && t.Value == Value
    {
      Tok.Token(Type, Value)
    }
  }

  /** The merge loop shared by `Words` and both merge branches of `Bib`:
      while `Tok` reads a letter off the front of the buffer, append it to
      `tok` and retype `tok` as `merged`. */
  method MergeLetters(tok: TokenRef, buf: seq<byte>, merged: string) returns (rest: seq<byte>)
    modifies tok
    ensures (tok.Get(), rest) == Tok.MergeLetters(old(tok.Get()), buf, merged)
  {
    rest := buf;
    var step := Tok.Tok(rest);
    while step.0.Type == Tok.Letter
      invariant step == Tok.Tok(rest)
      invariant Tok.MergeLetters(tok.Get(), rest, merged) == Tok.MergeLetters(old(tok.Get()), buf, merged)
      decreases |rest|
    {
      Tok.TokSplits(rest);
      tok.Type := merged;
      tok.Value := tok.Value + [step.0.Value[0]];
      rest := step.1;
      step := Tok.Tok(rest);
    }
  }

  /** Go `Words`: a Letter or Word token absorbs the run of letters that
      follows it and becomes a Word; the same pointer is handed back. */
  method Words(tok: TokenRef, buf: seq<byte>) returns (out: TokenRef, rest: seq<byte>)
    modifies tok
    ensures out == tok
    ensures (tok.Get(), rest) == Tok.Words(old(tok.Get()), buf)
  {
    out, rest := tok, buf;
    if Tok.IsWordLike(tok.Type) {
      rest := MergeLetters(tok, buf, Tok.Word);
    }
  }

  /** Go `TokenFromMap`: scan the keys in the map's iteration order and
      return a new token typed by the first key whose bytes contain the
      token's value, or a copy of the token when none does. */
  method TokenFromMap(t: TokenRef, m: Tok.TokenMap, order: seq<string>) returns (r: TokenRef)
    requires Tok.IsIterationOrder(order, m)
    ensures fresh(r)
    ensures r.Get() == Tok.TokenFromMap(t.Get(), m, order)
  {
    var i := 0;
    while i < |order|
      invariant 0 <= i <= |order|
      invariant Tok.ScanKeys(t.Get(), m, order[i..]) == Tok.ScanKeys(t.Get(), m, order)
    {
      var k := order[i];
      if Contains(m[k], t.Value) {
        r := new TokenRef(Tok.Token(k, t.Value));
        return;
      }
      assert order[i..][1..] == order[i + 1..];
      i := i + 1;
    }
    r := new TokenRef(t.Get());
  }

  /** Go `Bib`: an AtSign or BibElement token absorbs the letters that
      follow it as a BibElement, a Letter or Word token absorbs them as a
      Word (both update the token in place and hand the same pointer back),
      and any other token is relabelled through the BibTeX marks into a new
      token, the argument left as it was and nothing consumed. */
  method Bib(tok: TokenRef, buf: seq<byte>, order: seq<string>) returns (out: TokenRef, rest: seq<byte>)
    requires Tok.IsIterationOrder(order, Tok.BibMarks)
    modifies tok
    ensures (out.Get(), rest) == Tok.Bib(old(tok.Get()), buf, order)
    ensures Tok.IsElementStart(old(tok.Type)) || Tok.IsWordLike(old(tok.Type)) ==> out == tok
    ensures !Tok.IsElementStart(old(tok.Type)) && !Tok.IsWordLike(old(tok.Type)) ==> fresh(out) && unchanged(tok)
  {
    if Tok.IsElementStart(tok.Type) {
      out := tok;
      rest := MergeLetters(tok, buf, Tok.BibElement);
    } else if Tok.IsWordLike(tok.Type) {
      out := tok;
      rest := MergeLetters(tok, buf, Tok.Word);
    } else {
      out := TokenFromMap(tok, Tok.BibMarks, order);
      rest := buf;
    }
  }
}
