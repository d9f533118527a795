# tok: a byte tokenizer with lookahead refine functions

This project models the Go package `tok` (file `tok.go`), a small tokenizer.
`Tok` shifts one byte off a buffer and classifies it as Punctuation, Space,
Numeral or Letter, using three byte tables. An empty buffer gives an EOF
token. `Tok2` runs `Tok` once and passes the token and the rest of the
buffer to a caller-supplied refine function (a `Tokenizer`), which may look
further ahead. The package ships two refine functions:

- `Words` merges the letters that follow a Letter or Word token into it,
  typing it Word once it has grown. A lone letter stays a Letter token.
- `Bib` is a naive BibTeX tokenizer. An AtSign or BibElement token
  absorbs the letters that follow into a BibElement, and a Letter or Word
  token absorbs them into a Word. Every other token is relabelled
  through a map of structural characters by `TokenFromMap`.

Layout:

- `bytes.dfy` (module `Bytes`): bytes, and Go's `bytes.Contains`. That
  function is a substring test, so the empty slice is contained in every
  slice.
- `tok.dfy` (module `Tok`): the type names and byte tables, the
  classifiers, `Tok`, `Tok2`, `TokenFromMap`, `Words` and `Bib` as
  functions on token values. `Classify` is an independent reference
  classification by ASCII range. `Tok` is proved to agree with it.
- `tok_properties.dfy` (module `TokProperties`): the properties of those
  functions.
  - The tables are disjoint.
  - Running `Tok` to EOF spells the buffer back (`TokenizeAll`, a loop).
  - `Words` takes the longest letter run.
  - The relabelling is as open as Go's map order leaves it.
  - What `Bib` does to the tokens `Tok` produces.
- `token_ref.dfy` (module `TokenPointers`): `Words`, `Bib` and
  `TokenFromMap` as the Go code runs them, on a `*Token` (class
  `TokenRef`). `Words` and `Bib` update that token in place in a loop.
  Each method is proved equal to the function of the same name in `Tok`.

Modelling decisions:

- Go map iteration order is unspecified. `TokenFromMap` takes the order
  as a parameter `order`, a list of the map's keys, each once. Its
  contract is only the relation `Relabels`, which every order satisfies:
  - the value is kept;
  - the type becomes some key whose bytes contain the value, or stays
    the same when no key does.

  `EveryMatchIsReachable` shows this is as precise as the code allows.
- The Go `Words` and `Bib` recurse into themselves after absorbing one
  letter. The token passed down is always retyped into the branch just
  taken, so the recursion re-enters that branch. The model writes that
  recursion once, as `MergeLetters`. It is specified by the predicate
  `AbsorbsLetterRun`: the longest letter run at the front of the buffer
  moves into the token.
- In the default branch, `Bib` returns the new token that `TokenFromMap`
  allocates. The argument is left untouched.
  `TokenPointers.Bib` states this with `fresh` and `unchanged`.

- The relabelling tests with `bytes.Contains`, a substring test, and
  the model keeps it so. One consequence is that the EOF token, whose
  value is empty, loses its type in `Bib` (`Tok2BibAtEnd`).
  `BibMarksOneByte` and `TokenFromMapOrderIrrelevant` show that the
  iteration order does not matter whenever at most one key matches.
  That covers every one-byte token relabelled through `Bib`'s map, whose
  entries are one byte each. With a map that holds both
  `OpenCurlyBrackets` ("{") and `CurlyBrackets` ("{}"), the value "{"
  matches two keys and the order decides.

## Model

| member | source | states |
|---|---|---|
| Bytes.Contains | tok.go:152-169 | Every slice contains the empty slice, and no slice contains a longer one |
| Bytes.ContainsShortNeedle | tok.go:152-169 | `bytes.Contains` holds for the empty needle, and for a one-byte needle it is membership of that byte |
| Tok.IsSpace | tok.go:152-154 | True on the empty slice; on one byte, true exactly when the byte is in `Spaces` |
| Tok.IsPunctuation | tok.go:157-159 | True on the empty slice; on one byte, true exactly when the byte is in `PunctuationMarks` |
| Tok.IsNumeral | tok.go:162-164 | True on the empty slice; on one byte, true exactly when the byte is in `Numerals` |
| Tok.IsTypeOf | tok.go:167-169 | True on the empty slice; on one byte, membership in `typeMap`; false for a value longer than the table |
| Tok.Tok | tok.go:172-205 | Empty buffer: EOF token, empty value, empty remainder. Otherwise: a one-byte token `[buf[0]]` typed by the reference `Classify` (punctuation, then space, then numeral, else letter), remainder `buf[1..]` |
| Tok.Tok2 | tok.go:225-228 | On the empty buffer the refine function receives the EOF token and an empty buffer; otherwise it receives the one-byte token typed by `Classify` and the buffer after that byte, and its answer is the result |
| Tok.TokSplits | tok.go:172-205 | Token value followed by remainder is the buffer; the type is EOF exactly on the empty buffer; the remainder is one byte shorter |
| Tok.ScanKeys | tok.go:210-221 | The first key, in the order visited, whose bytes contain the value names the new type; the value is kept; with no such key the type is kept |
| Tok.TokenFromMap | tok.go:209-222 | For any iteration order the result `Relabels` the token: value kept, type a matching key if any key matches, old type otherwise |
| Tok.AbsorbStep | tok.go:231-242 | Absorbing one letter and then the run after it is absorbing the run of the whole buffer |
| Tok.AbsorbNothing | tok.go:234-241 | When the next byte is not a letter, or the buffer is empty, nothing is absorbed and that byte is not consumed |
| Tok.MergeLetters | tok.go:231-242 | The result absorbs the longest run of letters at the front of the buffer into the token: value extended by the run, remainder after it, first non-letter kept, type `merged` when at least one byte was absorbed |
| Tok.Words | tok.go:231-242 | A Letter or Word token absorbs the letter run and becomes a Word if it grew; any other token and the buffer come back unchanged |
| Tok.Bib | tok.go:245-277 | Branches in order: AtSign or BibElement absorbs the letter run as BibElement; Letter or Word absorbs it as Word; anything else is relabelled through the seven structural marks and consumes nothing |
| TokProperties.TablesDisjoint | tok.go:94-100 | No byte is in two of `Numerals`, `Spaces` and `PunctuationMarks` |
| TokProperties.ClassifyExact | tok.go:183-204 | With the shipped tables each class is exactly its table, and Letter is exactly "in none of the tables" |
| TokProperties.AsciiLettersAreLetters | tok_test.go:44-57 | No ASCII letter is punctuation or space, and each classifies as Letter |
| TokProperties.NonAsciiIsLetter | tok.go:199-204 | Every byte from 128 up falls through to Letter |
| TokProperties.TokenizeAll | tok_test.go:83-91 | Calling `Tok` until EOF yields exactly one token per byte, each classifying its byte; the values spell the buffer and nothing remains |
| TokProperties.Tok2PassThrough | tok_test.go:95-106 | `Tok2` with the pass-through refine function returns what `Tok` returns |
| TokProperties.AbsorbsLetterRunUnique | tok.go:231-242 | The absorbed letter run is determined: two results that both absorb it are equal |
| TokProperties.AllLettersAt | tok.go:234-238 | Every byte of an absorbed run is a letter |
| TokProperties.AbsorbKeepsBytes | tok.go:231-242 | Merging moves bytes from the buffer to the value without losing or reordering any; the type is kept or becomes `merged` |
| TokProperties.WordsKeepsBytes | tok.go:231-242 | `Words` keeps value followed by buffer intact, never grows the buffer, and only ever retypes to Word |
| TokProperties.Tok2WordsSplits | tok.go:225-242 | Through `Tok2`, `Words` splits the buffer into value and remainder, consumes at least one byte of a non-empty buffer, and gives EOF exactly on the empty one |
| TokProperties.LetterThenRun | tok.go:231-242 | A first letter plus the run after it is the leading word of the buffer |
| TokProperties.Tok2WordsLongestRun | tok.go:225-242 | A leading letter starts a word: the longest letter run, typed Word if it has two bytes or more and Letter if one, with the first non-letter left in the buffer |
| TokProperties.LeadingWordExample | tok.go:231-242 | The leading word of "abc 1" is "abc" with " 1" remaining |
| TokProperties.WordsExample | tok.go:225-242 | `Tok2("abc 1", Words)` is the Word "abc" with " 1" remaining |
| TokProperties.EveryMatchIsReachable | tok.go:209-222 | Every key whose bytes contain the value is the outcome of some iteration order |
| TokProperties.TokenFromMapOrderIrrelevant | tok.go:209-222 | When at most one key matches, every iteration order gives the same token |
| TokProperties.BibMarksAreStructural | tok.go:265-273 | The relabelling map of `Bib` pairs each of the seven structural bytes `{`, `}`, `@`, `=`, `"`, `'`, `,` with its name and nothing else, and each of those bytes is punctuation |
| TokProperties.BibMarksOneByte | tok.go:263-273 | A one-byte token relabelled through the Bib marks gets the name of its structural character (`{`, `}`, `@`, `=`, `"`, `'`, `,`), or keeps its type |
| TokProperties.BibRelabelsOneByte | tok.go:263-273 | `Bib` on a one-byte token outside the merge branches gives that relabelling and consumes nothing, whatever the iteration order |
| TokProperties.BibWordBranchIsWords | tok.go:255-262 | The Letter/Word branch of `Bib` is `Words` |
| TokProperties.Tok2BibAtSign | tok.go:245-277 | `Tok` types "@" as Punctuation, so through `Tok2`, `Bib` turns "@" into an AtSign token and absorbs nothing after it |
| TokProperties.BibElementIsNoMark | tok.go:247-273 | BibElement is not a relabelling key, and no type `Tok` emits opens an element |
| TokProperties.Tok2BibNoElement | tok.go:245-277 | Through `Tok2`, `Bib` never produces a BibElement token |
| TokProperties.Tok2BibAtEnd | tok.go:211-273 | On the empty buffer, `Bib` turns the EOF token into one of the seven mark types with an empty value |
| TokenPointers.TokenRef.constructor | tok.go:134-138 | A new `*Token` holds the given type and value |
| TokenPointers.MergeLetters | tok.go:233-240 | The in-place loop leaves the token and the remainder exactly as `Tok.MergeLetters` computes them |
| TokenPointers.Words | tok.go:231-242 | Updates the caller's token in place and hands the same pointer back; token and remainder are those of `Tok.Words` |
| TokenPointers.TokenFromMap | tok.go:209-222 | Allocates a new token equal to `Tok.TokenFromMap` of the argument; the argument is not modified |
| TokenPointers.Bib | tok.go:245-277 | Token and remainder are those of `Tok.Bib`; the merge branches update the caller's token in place and return it; the default branch returns a new token and leaves the argument unchanged |

## Left out

- `Token.String` (tok.go:147-149): `fmt.Sprintf` formatting with `%q` quoting, which belongs to Go's library.
- The XML/JSON struct tags and the `XMLName` field (tok.go:134-138): serialisation by `encoding/xml` and `encoding/json` is not modelled.
- The `Version` constant (tok.go:44): release metadata.
- `Skip` and `Skip2`: the tests call them, but `tok.go` does not define them, so there is no code to model.
- The tests' fixture files: reading them is file I/O, and their contents are not modelled. `TokenizeAll` models the loop the test runs, not the expected types.
- Stack depth: Go's `Words` and `Bib` recurse once per absorbed letter, so a long enough run of letters exhausts the goroutine stack and aborts the program. The model (recursive functions and the loops of `TokenPointers`) has no such limit.
- Go slice aliasing and capacity in `append(tok.Value, ...)`: values are `seq<byte>`.
- How Go randomises map iteration: only its consequence is modelled, as the `order` parameter.
- The nil remainder of `Tok` on the empty buffer: it is modelled as the empty sequence, since Go treats a nil slice as empty.
- Refine functions that act on pointers: `Tok2` takes value-level refine functions. `TokenPointers` models the in-place versions directly, not as arguments to `Tok2`.
- Tok.TokenFromMap: its contract states only the relation `Relabels`, which is weaker than the first-match result it computes for a given order. This is deliberate, because Go does not fix the order. `ScanKeys` states the first-match behaviour.
