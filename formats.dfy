/**
 * Formats: a parse/write pair between text and a typed value. Two formats
 * exist here: the passthru format for string-typed symbols and the integer
 * format.
 */
module Formats {
  import opened Wrappers
  import opened Symbols
  import Decimal

  datatype Format = Passthru | IntFormat
  {
    /** The values of the format's declared type. */
    predicate Accepts(v: Value) {
      match this
      case Passthru => v.StrVal?
      case IntFormat => v.IntVal?
    }

    /** Reads a value; malformed text fails with a parse error carrying that text. */
    function Parse(raw: string): (r: Result<Value, Error>)
      ensures r.Ok? ==> Accepts(r.value)
      ensures r.Err? ==> r.error == ParseError(raw)
      ensures Passthru? ==> r == Ok(StrVal(raw))
      ensures IntFormat? ==> (r.Ok? <==> Decimal.ParseInt(raw).Some?)
    {
      match this
      case Passthru => Ok(StrVal(raw))
      case IntFormat =>
        match Decimal.ParseInt(raw)
        case Some(n) => Ok(IntVal(n))
        case None => Err(ParseError(raw))
    }

    /**
     * Writes a value of the declared type. A value of another type is rejected;
     * in the source the static type of the symbol rules that call out.
     */
    function Write(v: Value): (r: Result<string, Error>)
      ensures r.Ok? <==> Accepts(v)
      ensures r.Err? ==> r.error == TypeMismatch(v)
      ensures Passthru? && v.StrVal? ==> r == Ok(v.str)
    {
      match this
      case Passthru => if v.StrVal? then Ok(v.str) else Err(TypeMismatch(v))
      case IntFormat => if v.IntVal? then Ok(Decimal.FormatInt(v.num)) else Err(TypeMismatch(v))
    }

    /** Text that survives a parse followed by a write unchanged. */
    predicate Lossless(raw: string) {
      Passthru? || Decimal.CanonicalInt(raw)
    }
  }

  /** Every value of the declared type can be written and read back. */
  lemma ParseAfterWrite(f: Format, v: Value)
    requires f.Accepts(v)
    ensures f.Write(v).Ok? && f.Parse(f.Write(v).value) == Ok(v)
  {
    if f.IntFormat? {
      Decimal.ParseFormat(v.num);
    }
  }

  /** Lossless text that parses is written back to itself. */
  lemma WriteAfterParse(f: Format, raw: string)
    requires f.Parse(raw).Ok? && f.Lossless(raw)
    ensures f.Write(f.Parse(raw).value) == Ok(raw)
  {
    if f.IntFormat? {
      Decimal.FormatParse(raw);
    }
  }
}
