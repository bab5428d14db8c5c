/**
 * Symbol translators: a registry of formats per symbol, exposing per-symbol
 * and bulk conversion between text and typed values, with parser-only and
 * writer-only variants that refuse the other direction.
 */
module Translate {
  import opened Wrappers
  import opened Symbols
  import opened Formats

  /** Which directions a built object supports. */
  datatype Capability = Translator | Parser | Writer

  /** The registered format of each symbol. */
  type Registry = map<Symbol, Format>

  /** Parses one value with the symbol's registered format. */
  function ParseSymbol(reg: Registry, sym: Symbol, raw: string): (r: Result<Value, Error>)
    ensures r == Err(NotContained(sym)) <==> sym !in reg
    ensures r.Ok? ==> sym in reg && reg[sym].Accepts(r.value)
    ensures sym in reg && r.Err? ==> r.error == ParseError(raw)
    ensures sym in reg && reg[sym].Passthru? ==> r == Ok(StrVal(raw))
  {
    if sym !in reg then Err(NotContained(sym)) else reg[sym].Parse(raw)
  }

  /** Writes one value with the symbol's registered format. */
  function WriteSymbol(reg: Registry, sym: Symbol, v: Value): (r: Result<string, Error>)
    ensures r == Err(NotContained(sym)) <==> sym !in reg
    ensures r.Ok? <==> sym in reg && reg[sym].Accepts(v)
    ensures sym in reg && r.Err? ==> r.error == TypeMismatch(v)
    ensures sym in reg && reg[sym].Passthru? && v.StrVal? ==> r == Ok(v.str)
  {
    if sym !in reg then Err(NotContained(sym)) else reg[sym].Write(v)
  }

  /** Whether an entry's text parses under the registry. */
  predicate EntryParses(reg: Registry, entry: (string, string)) {
    ParseSymbol(reg, Symbol(entry.0), entry.1).Ok?
  }

  /** Whether an entry's value can be written under the registry. */
  predicate EntryWrites(reg: Registry, entry: (Symbol, Value)) {
    WriteSymbol(reg, entry.0, entry.1).Ok?
  }

  /**
   * Parses a string map entry by entry, in order, stopping at the first entry
   * that fails; the key of each entry names its symbol.
   */
  function ParseEntries(reg: Registry, raw: StringMap): (r: Result<SymbolMap, Error>)
    ensures r.Ok? <==> forall i :: 0 <= i < |raw| ==> EntryParses(reg, raw[i])
    ensures r.Ok? ==> && |r.value| == |raw|
                      && forall i :: 0 <= i < |raw| ==>
                           && r.value[i].0 == Symbol(raw[i].0)
                           && ParseSymbol(reg, Symbol(raw[i].0), raw[i].1) == Ok(r.value[i].1)
    ensures r.Err? ==> exists i :: && 0 <= i < |raw|
                                   && (forall j :: 0 <= j < i ==> EntryParses(reg, raw[j]))
                                   && ParseSymbol(reg, Symbol(raw[i].0), raw[i].1) == Err(r.error)
  {
    if raw == [] then Ok([])
    else
      match ParseSymbol(reg, Symbol(raw[0].0), raw[0].1)
      case Err(e) => Err(e)
      case Ok(v) =>
        match ParseEntries(reg, raw[1..])
        case Err(e) =>
          assert forall i :: 1 <= i < |raw| ==> raw[1..][i - 1] == raw[i];
          Err(e)
        case Ok(rest) =>
          assert forall i :: 1 <= i < |raw| ==> raw[1..][i - 1] == raw[i];
          Ok([(Symbol(raw[0].0), v)] + rest)
  }

  /**
   * Writes a symbol map entry by entry, in order, stopping at the first entry
   * that fails; each key of the result is its symbol's name.
   */
  function WriteEntries(reg: Registry, values: SymbolMap): (r: Result<StringMap, Error>)
    ensures r.Ok? <==> forall i :: 0 <= i < |values| ==> EntryWrites(reg, values[i])
    ensures r.Ok? ==> && |r.value| == |values|
                      && forall i :: 0 <= i < |values| ==>
                           && r.value[i].0 == values[i].0.name
                           && WriteSymbol(reg, values[i].0, values[i].1) == Ok(r.value[i].1)
    ensures r.Err? ==> exists i :: && 0 <= i < |values|
                                   && (forall j :: 0 <= j < i ==> EntryWrites(reg, values[j]))
                                   && WriteSymbol(reg, values[i].0, values[i].1) == Err(r.error)
  {
    if values == [] then Ok([])
    else
      match WriteSymbol(reg, values[0].0, values[0].1)
      case Err(e) => Err(e)
      case Ok(text) =>
        match WriteEntries(reg, values[1..])
        case Err(e) =>
          assert forall i :: 1 <= i < |values| ==> values[1..][i - 1] == values[i];
          Err(e)
        case Ok(rest) =>
          assert forall i :: 1 <= i < |values| ==> values[1..][i - 1] == values[i];
          Ok([(values[0].0.name, text)] + rest)
  }

  /** Text whose parse under the registry can be written back unchanged. */
  predicate LosslessEntries(reg: Registry, raw: StringMap) {
    forall i :: 0 <= i < |raw| ==> Symbol(raw[i].0) in reg && reg[Symbol(raw[i].0)].Lossless(raw[i].1)
  }

  /**
   * Viewed as a map, a successful bulk parse holds, for each key, the parse of
   * the text of that key's last entry.
   */
  lemma ParsedEntriesLookup(reg: Registry, raw: StringMap, i: nat)
    requires ParseEntries(reg, raw).Ok?
    requires i < |raw| && forall j :: i < j < |raw| ==> raw[j].0 != raw[i].0
    ensures var m := AsMap(ParseEntries(reg, raw).value);
            Symbol(raw[i].0) in m && ParseSymbol(reg, Symbol(raw[i].0), raw[i].1) == Ok(m[Symbol(raw[i].0)])
  {
    var values := ParseEntries(reg, raw).value;
    forall j | i < j < |values| ensures values[j].0 != values[i].0 {
      assert values[j].0 == Symbol(raw[j].0) && values[i].0 == Symbol(raw[i].0);
    }
    AsMapLookup(values, i);
  }

  /** Writing a symbol map and parsing the result gives back the same symbol map. */
  lemma ParseWrittenEntries(reg: Registry, values: SymbolMap)
    requires WriteEntries(reg, values).Ok?
    ensures ParseEntries(reg, WriteEntries(reg, values).value) == Ok(values)
  {
    var text := WriteEntries(reg, values).value;
    forall i | 0 <= i < |values|
      ensures ParseSymbol(reg, Symbol(text[i].0), text[i].1) == Ok(values[i].1)
    {
      assert EntryWrites(reg, values[i]);
      ParseAfterWrite(reg[values[i].0], values[i].1);
    }
    var parsed := ParseEntries(reg, text);
    assert forall i :: 0 <= i < |text| ==> EntryParses(reg, text[i]);
    assert parsed.value == values by {
      forall i | 0 <= i < |values| ensures parsed.value[i] == values[i] {
        assert ParseSymbol(reg, Symbol(text[i].0), text[i].1) == Ok(parsed.value[i].1);
      }
    }
  }

  /** Parsing a string map of lossless text and writing the result gives back the same string map. */
  lemma WriteParsedEntries(reg: Registry, raw: StringMap)
    requires ParseEntries(reg, raw).Ok?
    requires LosslessEntries(reg, raw)
    ensures WriteEntries(reg, ParseEntries(reg, raw).value) == Ok(raw)
  {
    var values := ParseEntries(reg, raw).value;
    forall i | 0 <= i < |raw|
      ensures WriteSymbol(reg, values[i].0, values[i].1) == Ok(raw[i].1)
    {
      assert EntryParses(reg, raw[i]);
      WriteAfterParse(reg[Symbol(raw[i].0)], raw[i].1);
    }
    var written := WriteEntries(reg, values);
    assert forall i :: 0 <= i < |values| ==> EntryWrites(reg, values[i]);
    assert written.value == raw by {
      forall i | 0 <= i < |raw| ensures written.value[i] == raw[i] {
        assert WriteSymbol(reg, values[i].0, values[i].1) == Ok(written.value[i].1);
      }
    }
  }

  /** A built parser, writer or translator: the registrations and the directions it supports. */
  datatype SymbolTranslator = SymbolTranslator(capability: Capability, formats: Registry)
  {
    predicate CanParse() {
      capability != Writer
    }

    predicate CanWrite() {
      capability != Parser
    }

    /** Per-symbol parse; a writer-only object refuses it. */
    function Parse(sym: Symbol, raw: string): (r: Result<Value, Error>)
      ensures r == Err(NotImplemented) <==> !CanParse()
      ensures CanParse() ==> r == ParseSymbol(formats, sym, raw)
    {
      if !CanParse() then Err(NotImplemented) else ParseSymbol(formats, sym, raw)
    }

    /** Per-symbol write; a parser-only object refuses it. */
    function Write(sym: Symbol, v: Value): (r: Result<string, Error>)
      ensures r == Err(NotImplemented) <==> !CanWrite()
      ensures CanWrite() ==> r == WriteSymbol(formats, sym, v)
    {
      if !CanWrite() then Err(NotImplemented) else WriteSymbol(formats, sym, v)
    }

    /** Bulk parse of a string map into a symbol map; a writer-only object refuses it. */
    function ParseMap(raw: StringMap): (r: Result<SymbolMap, Error>)
      ensures r == Err(NotImplemented) <==> !CanParse()
      ensures CanParse() ==> r == ParseEntries(formats, raw)
    {
      if !CanParse() then Err(NotImplemented) else ParseEntries(formats, raw)
    }

    /** Bulk write of a symbol map into a string map; a parser-only object refuses it. */
    function WriteMap(values: SymbolMap): (r: Result<StringMap, Error>)
      ensures r == Err(NotImplemented) <==> !CanWrite()
      ensures CanWrite() ==> r == WriteEntries(formats, values)
    {
      if !CanWrite() then Err(NotImplemented) else WriteEntries(formats, values)
    }
  }

  /** A full translator's bulk conversions are inverse to each other (for lossless text). */
  lemma TranslatorRoundTrip(t: SymbolTranslator, values: SymbolMap, raw: StringMap)
    requires t.capability == Translator
    ensures t.WriteMap(values).Ok? ==> t.ParseMap(t.WriteMap(values).value) == Ok(values)
    ensures t.ParseMap(raw).Ok? && LosslessEntries(t.formats, raw) ==>
              t.WriteMap(t.ParseMap(raw).value) == Ok(raw)
  {
    if t.WriteMap(values).Ok? {
      ParseWrittenEntries(t.formats, values);
    }
    if t.ParseMap(raw).Ok? && LosslessEntries(t.formats, raw) {
      WriteParsedEntries(t.formats, raw);
    }
  }

  /** Accumulates registrations; `Build` freezes them into a translator of the builder's capability. */
  datatype Builder = Builder(capability: Capability, formats: Registry)
  {
    /** Registers a symbol with an explicit format, replacing any earlier registration. */
    function Add(sym: Symbol, f: Format): (b: Builder)
      ensures b.capability == capability
      ensures b.formats.Keys == formats.Keys + {sym} && b.formats[sym] == f
      ensures forall s :: s in formats && s != sym ==> b.formats[s] == formats[s]
    {
      Builder(capability, formats[sym := f])
    }

    /** Registers a string-typed symbol with the passthru format. */
    function AddString(sym: Symbol): (b: Builder)
      ensures b.capability == capability
      ensures b.formats.Keys == formats.Keys + {sym} && b.formats[sym] == Passthru
      ensures forall s :: s in formats && s != sym ==> b.formats[s] == formats[s]
    {
      Add(sym, Passthru)
    }

    /** Freezes the registrations; the built object supports the builder's directions. */
    function Build(): (t: SymbolTranslator)
      ensures t.capability == capability && t.formats == formats
      ensures t.CanParse() <==> capability != Writer
      ensures t.CanWrite() <==> capability != Parser
    {
      SymbolTranslator(capability, formats)
    }
  }

  /** A builder of full translators, with nothing registered yet. */
  function TranslatorBuilder(): (b: Builder)
    ensures b.capability == Translator && b.formats == map[]
    ensures b.Build().CanParse() && b.Build().CanWrite()
  {
    Builder(Translator, map[])
  }

  /** A builder of parser-only objects, with nothing registered yet. */
  function ParserBuilder(): (b: Builder)
    ensures b.capability == Parser && b.formats == map[]
    ensures b.Build().CanParse() && !b.Build().CanWrite()
  {
    Builder(Parser, map[])
  }

  /** A builder of writer-only objects, with nothing registered yet. */
  function WriterBuilder(): (b: Builder)
    ensures b.capability == Writer && b.formats == map[]
    ensures !b.Build().CanParse() && b.Build().CanWrite()
  {
    Builder(Writer, map[])
  }

  /**
   * A chain of `Add` calls, applied in order: the registered symbols are the
   * builder's and the chain's, and the last registration of a symbol wins.
   */
  function Register(b: Builder, regs: seq<(Symbol, Format)>): (r: Builder)
    ensures r.capability == b.capability
    ensures forall s :: s in r.formats <==> s in b.formats || exists i :: 0 <= i < |regs| && regs[i].0 == s
    ensures forall i :: 0 <= i < |regs| && (forall j :: i < j < |regs| ==> regs[j].0 != regs[i].0) ==>
              r.formats[regs[i].0] == regs[i].1
    ensures forall s :: s in b.formats && (forall i :: 0 <= i < |regs| ==> regs[i].0 != s) ==>
              r.formats[s] == b.formats[s]
    decreases |regs|
  {
    if regs == [] then b
    else
      assert forall i :: 1 <= i < |regs| ==> regs[1..][i - 1] == regs[i];
      Register(b.Add(regs[0].0, regs[0].1), regs[1..])
  }

  /** The registrations a chain of `Add` calls produces do not depend on the builder's capability. */
  lemma {:induction false} RegisterIgnoresCapability(b1: Builder, b2: Builder, regs: seq<(Symbol, Format)>)
    requires b1.formats == b2.formats
    ensures Register(b1, regs).capability == b1.capability
    ensures Register(b1, regs).formats == Register(b2, regs).formats
    decreases |regs|
  {
    if regs != [] {
      RegisterIgnoresCapability(b1.Add(regs[0].0, regs[0].1), b2.Add(regs[0].0, regs[0].1), regs[1..]);
    }
  }

  /**
   * The same registrations built as a translator, a parser and a writer: the
   * parser parses as the translator does and refuses to write, the writer
   * writes as the translator does and refuses to parse.
   */
  lemma BuildersAgree(regs: seq<(Symbol, Format)>, sym: Symbol, raw: string, v: Value,
                      rawMap: StringMap, values: SymbolMap)
    ensures var t := Register(TranslatorBuilder(), regs).Build();
            var p := Register(ParserBuilder(), regs).Build();
            && p.Parse(sym, raw) == t.Parse(sym, raw)
            && p.ParseMap(rawMap) == t.ParseMap(rawMap)
            && p.Write(sym, v) == Err(NotImplemented)
            && p.WriteMap(values) == Err(NotImplemented)
            && t.Parse(sym, raw) != Err(NotImplemented)
    ensures var t := Register(TranslatorBuilder(), regs).Build();
            var w := Register(WriterBuilder(), regs).Build();
            && w.Write(sym, v) == t.Write(sym, v)
            && w.WriteMap(values) == t.WriteMap(values)
            && w.Parse(sym, raw) == Err(NotImplemented)
            && w.ParseMap(rawMap) == Err(NotImplemented)
            && t.Write(sym, v) != Err(NotImplemented)
  {
    RegisterIgnoresCapability(TranslatorBuilder(), ParserBuilder(), regs);
    RegisterIgnoresCapability(ParserBuilder(), TranslatorBuilder(), regs);
    RegisterIgnoresCapability(WriterBuilder(), TranslatorBuilder(), regs);
  }
}
