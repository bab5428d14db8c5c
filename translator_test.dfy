/**
 * The translator contract as the test suite fixes it: symbols `name` (string)
 * and `age` (integer), an unregistered symbol `missing`, and the same two
 * registrations built as a translator, a parser and a writer.
 */
module TranslatorTest {
  import opened Wrappers
  import opened Symbols
  import opened Formats
  import opened Translate

  const Missing := Symbol("missing")
  const Age := Symbol("age")
  const Name := Symbol("name")

  /** The string map {"name": "bob", "age": "9"}. */
  const Strings: StringMap := [("name", "bob"), ("age", "9")]

  /** The symbol map {name: "bob", age: 9}. */
  const Values: SymbolMap := [(Name, StrVal("bob")), (Age, IntVal(9))]

  /** `age` with the integer format, then `name` with the passthru format. */
  function Registered(b: Builder): SymbolTranslator {
    b.Add(Age, IntFormat).AddString(Name).Build()
  }

  /** What the test's parser check asserts of an object. */
  predicate ParsesAsExpected(p: SymbolTranslator) {
    && p.Parse(Name, "bob") == Ok(StrVal("bob"))
    && p.Parse(Age, "9") == Ok(IntVal(9))
    && p.Parse(Age, "x") == Err(ParseError("x"))
    && p.Parse(Missing, "...") == Err(NotContained(Missing))
    && p.ParseMap(Strings).Ok? && AsMap(p.ParseMap(Strings).value) == AsMap(Values)
  }

  /** What the test's writer check asserts of an object. */
  predicate WritesAsExpected(w: SymbolTranslator) {
    && w.Write(Name, StrVal("bob")) == Ok("bob")
    && w.Write(Age, IntVal(9)) == Ok("9")
    && w.Write(Missing, StrVal("...")) == Err(NotContained(Missing))
    && w.WriteMap(Values).Ok? && AsMap(w.WriteMap(Values).value) == AsMap(Strings)
  }

  /** The translator's two bulk conversions on the fixtures, entry for entry. */
  lemma BulkConversions()
    ensures Registered(TranslatorBuilder()).ParseMap(Strings) == Ok(Values)
    ensures Registered(TranslatorBuilder()).WriteMap(Values) == Ok(Strings)
  {
    var reg := Registered(TranslatorBuilder()).formats;
    assert reg == map[Age := IntFormat, Name := Passthru];
    assert Decimal.ParseInt("9") == Some(9) by {
      assert Decimal.DigitsValue("9"[..0]) == 0;
    }
    assert Decimal.FormatInt(9) == "9";
    assert ParseSymbol(reg, Age, "9") == Ok(IntVal(9));
    assert EntryParses(reg, Strings[0]) && EntryParses(reg, Strings[1]);
    var parsed := ParseEntries(reg, Strings).value;
    assert parsed[0] == Values[0] && parsed[1] == Values[1];
    assert parsed == Values;
    assert WriteSymbol(reg, Age, IntVal(9)) == Ok("9");
    assert EntryWrites(reg, Values[0]) && EntryWrites(reg, Values[1]);
    var written := WriteEntries(reg, Values).value;
    assert written[0] == Strings[0] && written[1] == Strings[1];
    assert written == Strings;
  }

  /** A full translator passes both the parser and the writer checks. */
  lemma TestSymbolTranslator()
    ensures ParsesAsExpected(Registered(TranslatorBuilder()))
    ensures WritesAsExpected(Registered(TranslatorBuilder()))
  {
    BulkConversions();
  }

  /** A parser passes the parser check and refuses the first write of the writer check. */
  lemma TestSymbolParser()
    ensures ParsesAsExpected(Registered(ParserBuilder()))
    ensures Registered(ParserBuilder()).Write(Name, StrVal("bob")) == Err(NotImplemented)
  {
    BulkConversions();
    var p, t := Registered(ParserBuilder()), Registered(TranslatorBuilder());
    assert p.formats == t.formats;
    assert p.ParseMap(Strings) == t.ParseMap(Strings);
  }

  /** A writer passes the writer check and refuses the first parse of the parser check. */
  lemma TestSymbolWriter()
    ensures WritesAsExpected(Registered(WriterBuilder()))
    ensures Registered(WriterBuilder()).Parse(Name, "bob") == Err(NotImplemented)
  {
    BulkConversions();
    var w, t := Registered(WriterBuilder()), Registered(TranslatorBuilder());
    assert w.formats == t.formats;
    assert w.WriteMap(Values) == t.WriteMap(Values);
  }
}
