# Symbol schemas and symbol translators, in Dafny

This project models two pieces of an in-memory "symbol" data-contract library:

- **Symbol schemas** (`SymbolSchemaClass`). A schema holds a set of required symbols and a
  set of optional symbols. The two sets are disjoint. The schema also stores their union,
  the set of recognised symbols. It validates a provided set of symbols: every required
  symbol must be present, and nothing outside the recognised set may appear. A failure
  reports the missing set and the unexpected set together.
- **Symbol translators**, as the translator test fixes their contract. A registry maps
  symbols to formats. A format is a parse/write pair; there is a passthru format for
  strings and an integer format. Built objects convert single values and whole maps
  between text and typed values. An object can be a full translator, parser-only or
  writer-only; the unsupported direction fails with `NotImplemented`.

Everything is pure: values are datatypes, operations are functions, properties are lemmas.
Java exceptions become `Err`/`Fail` results carrying one `Error` datatype
(`Bug`, `InvalidSymbols`, `NotContained`, `ParseError`, `NotImplemented`, `TypeMismatch`).

Layout:

- `wrappers.dfy`: `Option`, `Result` and `Outcome`.
- `symbols.dfy`: `Symbol` (equal iff same name), `Value` (`StrVal | IntVal`), `Error`, and
  insertion-ordered entry lists used for symbol maps and string maps. `AsMap` gives the
  mapping an entry list denotes; map equality in the source is `AsMap` equality here.
- `schema.dfy`: the schema, its constructor, the four `validate` overloads and `withOptional`.
- `decimal.dfy`: decimal text for integers, the stand-in for the integer format.
- `formats.dfy`: the passthru and integer formats.
- `translate.dfy`: per-symbol and bulk parse/write, capabilities, builders, round trips.
- `translator_test.dfy`: the test's fixtures and what each of its three tests asserts.

`withOptional` passes the required set and the enlarged optional set to `SymbolLib.schema`.
`SymbolLib` is not part of this model. The model assumes that `SymbolLib.schema` builds a
`SymbolSchemaClass`, so `withOptional` re-checks overlap and fails with `Bug` when a new
optional symbol is already required. Whether `SymbolLib.schema` re-checks overlap cannot be
seen from `SymbolSchemaClass`. If it does not, `withOptional` can return a schema whose sets
overlap, and this model does not represent that case.

## Model

| member | source | states |
|---|---|---|
| `Schema.NewSchema` | src/main/java/com/stevewedig/blog/symbol/SymbolSchemaClass.java:31-45 | construction succeeds iff required and optional are disjoint; the schema then holds exactly the given sets and their union; otherwise `Bug` carries exactly the overlap, which is non-empty |
| `Schema.Validate` | src/main/java/com/stevewedig/blog/symbol/SymbolSchemaClass.java:84-97 | passes iff every required symbol is provided and every provided symbol is required or optional; a failure is `InvalidSymbols` with missing = required − provided and unexpected = provided − (required ∪ optional), both always reported |
| `Schema.ValidateAll` | src/main/java/com/stevewedig/blog/symbol/SymbolSchemaClass.java:99-108 | the iterable and varargs overloads pass iff every required symbol occurs in the sequence and every element is a recognised symbol |
| `Schema.ValidateAllIgnoresOrder` | src/main/java/com/stevewedig/blog/symbol/SymbolSchemaClass.java:99-108 | two sequences with the same elements validate identically, whatever their order and repetitions |
| `Schema.ValidateMap` | src/main/java/com/stevewedig/blog/symbol/SymbolSchemaClass.java:111-114 | a symbol map passes iff every required symbol has an entry and every entry's symbol is recognised |
| `Schema.WithOptional` | src/main/java/com/stevewedig/blog/symbol/SymbolSchemaClass.java:70-77 | succeeds iff no new optional symbol is required; the result keeps the required set and has optional = old optional ∪ new symbols; a failure is a `Bug` naming only new symbols; the receiver is a value and cannot change |
| `Schema.WithOptionalNothing` | src/main/java/com/stevewedig/blog/symbol/SymbolSchemaClass.java:71-76 | extending with no symbols gives back an equal schema |
| `Schema.WithOptionalKeepsAccepted` | src/main/java/com/stevewedig/blog/symbol/SymbolSchemaClass.java:71-77 | a symbol set the schema accepts is still accepted after a successful extension |
| `Decimal.ParseInt` | src/test/java/com/stevewedig/blog/symbol/TestSymbolTranslator.java:93-99 | integer text is accepted iff it is an optional '-' followed by one or more digits |
| `Decimal.FormatInt` | src/test/java/com/stevewedig/blog/symbol/TestSymbolTranslator.java:134 | written integer text is canonical and starts with '-' iff the integer is negative |
| `Decimal.ParseFormat` | src/test/java/com/stevewedig/blog/symbol/TestSymbolTranslator.java:134 | reading back written integer text gives the original integer, for every integer |
| `Decimal.FormatParse` | src/test/java/com/stevewedig/blog/symbol/TestSymbolTranslator.java:93 | text is canonical iff it parses and writing the parsed integer gives the same text |
| `Formats.Format.Parse` | src/test/java/com/stevewedig/blog/symbol/TestSymbolTranslator.java:87-99 | passthru parse is the identity; integer parse succeeds iff the text is decimal, returns a value of the format's type, and otherwise fails with `ParseError` carrying the text |
| `Formats.Format.Write` | src/test/java/com/stevewedig/blog/symbol/TestSymbolTranslator.java:128-134 | write succeeds iff the value has the format's type; passthru write is the identity |
| `Formats.ParseAfterWrite` | src/test/java/com/stevewedig/blog/symbol/TestSymbolTranslator.java:128-134 | every value of a format's type is written and parsed back to itself |
| `Formats.WriteAfterParse` | src/test/java/com/stevewedig/blog/symbol/TestSymbolTranslator.java:87-93 | lossless text that parses is written back to itself |
| `Translate.ParseSymbol` | src/test/java/com/stevewedig/blog/symbol/TestSymbolTranslator.java:87-109 | fails with `NotContained(sym)` iff the symbol has no format; otherwise a parsed value has the format's type and any failure is the format's `ParseError` |
| `Translate.WriteSymbol` | src/test/java/com/stevewedig/blog/symbol/TestSymbolTranslator.java:128-144 | fails with `NotContained(sym)` iff the symbol has no format; succeeds iff it is registered and the value has its format's type |
| `Translate.ParseEntries` | src/test/java/com/stevewedig/blog/symbol/TestSymbolTranslator.java:115 | bulk parse succeeds iff every entry parses; the result keeps the entries' order, keys become symbols of the same names and values are their parses; a failure is the error of the first failing entry |
| `Translate.WriteEntries` | src/test/java/com/stevewedig/blog/symbol/TestSymbolTranslator.java:150 | bulk write succeeds iff every entry writes; keys become symbol names and values their written text; a failure is the error of the first failing entry |
| `Translate.ParsedEntriesLookup` | src/test/java/com/stevewedig/blog/symbol/TestSymbolTranslator.java:115 | viewed as a map, a successful bulk parse holds each key's symbol with the parse of that key's last entry |
| `Translate.ParseWrittenEntries` | src/test/java/com/stevewedig/blog/symbol/TestSymbolTranslator.java:28-30 | parsing the result of a successful bulk write gives back the original symbol map |
| `Translate.WriteParsedEntries` | src/test/java/com/stevewedig/blog/symbol/TestSymbolTranslator.java:28-30 | writing the result of a successful bulk parse of lossless text gives back the original string map |
| `Translate.SymbolTranslator.Parse` | src/test/java/com/stevewedig/blog/symbol/TestSymbolTranslator.java:81-109 | fails with `NotImplemented` iff the object is writer-only; otherwise parses with the symbol's registered format |
| `Translate.SymbolTranslator.Write` | src/test/java/com/stevewedig/blog/symbol/TestSymbolTranslator.java:122-144 | fails with `NotImplemented` iff the object is parser-only; otherwise writes with the symbol's registered format |
| `Translate.SymbolTranslator.ParseMap` | src/test/java/com/stevewedig/blog/symbol/TestSymbolTranslator.java:115 | bulk parse fails with `NotImplemented` iff the object is writer-only; otherwise it is the registry's bulk parse |
| `Translate.SymbolTranslator.WriteMap` | src/test/java/com/stevewedig/blog/symbol/TestSymbolTranslator.java:150 | bulk write fails with `NotImplemented` iff the object is parser-only; otherwise it is the registry's bulk write |
| `Translate.TranslatorRoundTrip` | src/test/java/com/stevewedig/blog/symbol/TestSymbolTranslator.java:36-45 | a full translator's bulk write then parse is the identity on symbol maps, and its parse then write is the identity on lossless string maps |
| `Translate.Builder.Add` | src/test/java/com/stevewedig/blog/symbol/TestSymbolTranslator.java:40 | registering a symbol gives it the format and leaves every other registration and the capability unchanged |
| `Translate.Builder.AddString` | src/test/java/com/stevewedig/blog/symbol/TestSymbolTranslator.java:40 | registering a string symbol without a format gives it the passthru format and leaves the rest unchanged |
| `Translate.Builder.Build` | src/test/java/com/stevewedig/blog/symbol/TestSymbolTranslator.java:40 | the built object keeps the builder's capability and registrations, and supports parsing unless writer-only and writing unless parser-only |
| `Translate.TranslatorBuilder` | src/test/java/com/stevewedig/blog/symbol/TestSymbolTranslator.java:40 | a translator builder starts with no registrations and builds objects supporting both directions |
| `Translate.ParserBuilder` | src/test/java/com/stevewedig/blog/symbol/TestSymbolTranslator.java:51 | a parser builder starts with no registrations and builds objects that parse but do not write |
| `Translate.WriterBuilder` | src/test/java/com/stevewedig/blog/symbol/TestSymbolTranslator.java:66 | a writer builder starts with no registrations and builds objects that write but do not parse |
| `Translate.Register` | src/test/java/com/stevewedig/blog/symbol/TestSymbolTranslator.java:40 | a chain of `add` calls keeps the capability, registers exactly the builder's symbols and the chain's, gives each chained symbol its last format, and leaves the other symbols' formats alone |
| `Translate.RegisterIgnoresCapability` | src/test/java/com/stevewedig/blog/symbol/TestSymbolTranslator.java:39-66 | the same chain of registrations yields the same registry whichever builder it runs on, and keeps the builder's capability |
| `Translate.BuildersAgree` | src/test/java/com/stevewedig/blog/symbol/TestSymbolTranslator.java:36-75 | the same registrations built as parser and translator parse alike, built as writer and translator write alike; the parser refuses every write and the writer every parse with `NotImplemented`; the translator refuses neither |
| `TranslatorTest.BulkConversions` | src/test/java/com/stevewedig/blog/symbol/TestSymbolTranslator.java:28-30 | the translator parses {"name":"bob","age":"9"} to {name:"bob", age:9} and writes that symbol map back to the same string map |
| `TranslatorTest.TestSymbolTranslator` | src/test/java/com/stevewedig/blog/symbol/TestSymbolTranslator.java:36-45 | the full translator passes every parser and writer assertion of the test |
| `TranslatorTest.TestSymbolParser` | src/test/java/com/stevewedig/blog/symbol/TestSymbolTranslator.java:47-60 | the parser passes every parser assertion and its first write fails with `NotImplemented` |
| `TranslatorTest.TestSymbolWriter` | src/test/java/com/stevewedig/blog/symbol/TestSymbolTranslator.java:62-75 | the writer passes every writer assertion and its first parse fails with `NotImplemented` |

## Left out

- Value-object plumbing (reflective `fields()`, equality and hashing): datatype equality stands for it.
- Exception messages: only the error kind and the sets or text it carries are modelled.
- `SymbolLib.schema` is not part of this model; `withOptional` is assumed to reach the constructor through it (see above).
- The `SymbolMap` builder (`put` with its runtime type check, `solid`, `get`) is not part of this model; symbol maps are plain entry lists.
- `FormatLib.intFormat` is not part of this model. The integer format is a decimal stand-in: an optional '-' and one or more ASCII digits. A leading '+' and the 32-bit range of Java's `Integer` are not modelled; integers are unbounded.
- Java generics: a symbol's declared type becomes the format's value tag. Writing a value of the wrong type, which the Java compiler rejects, yields `TypeMismatch` here instead of a cast failure.
- `SymbolFormatLib` and the translator classes are not part of this model. Bulk conversion is modelled as processing entries in the map's iteration order and stopping at the first failure. A repeated registration of one symbol replaces the earlier one.
