/**
 * `ShortArgument`: a command argument holding a 16-bit integer within an
 * inclusive range, its builder and its parser.
 */
module ShortArgument {
  import opened Wrappers
  import opened JavaLang
  import opened Input

  /** A value of Java's `short`. */
  type Short = x: int | -0x8000 <= x <= 0x7FFF

  /** `ShortParser.DEFAULT_MINIMUM`, `Short.MIN_VALUE`. */
  const DEFAULT_MINIMUM: Short := -0x8000
  /** `ShortParser.DEFAULT_MAXIMUM`, `Short.MAX_VALUE`. */
  const DEFAULT_MAXIMUM: Short := 0x7FFF

  /** Why a parse failed: no token at all, or a token that is not a short within range. */
  datatype ShortFailure =
    | NoInputProvided
    | ShortParseFailure(input: string, min: Short, max: Short)

  /** `ArgumentParseResult<Short>`. */
  type ParseResult = Result<Short, ShortFailure>

  /** `ShortParser(min, max)`. */
  datatype ShortParser = ShortParser(min: Short, max: Short)
  {
    /** `hasMax()`: the maximum differs from the default. */
    predicate HasMax()
    {
      max != DEFAULT_MAXIMUM
    }

    /** `hasMin()`: the minimum differs from the default. */
    predicate HasMin()
    {
      min != DEFAULT_MINIMUM
    }

    /** `isContextFree()`: the result depends on the token alone. */
    function IsContextFree(): (r: bool)
      ensures r
    {
      true
    }
  }

  /** `Short.parseShort`: a decimal integer that fits 16 bits (narrowed to ASCII digits). */
  function ParseShortNumber(s: string): (r: Option<Short>)
    ensures r.Some? <==> ParseDecimal(s).Some? && -0x8000 <= ParseDecimal(s).value <= 0x7FFF
    ensures r.Some? ==> r.value == ParseDecimal(s).value
  {
    match ParseDecimal(s)
    case Some(v) => if -0x8000 <= v <= 0x7FFF then Some(v) else None
    case None => None
  }

  /**
   * `ShortParser.parse` on a token queue: the result and the queue afterwards.
   * The head token is consumed only on success.
   */
  function Parse(p: ShortParser, tokens: seq<string>): (r: (ParseResult, seq<string>))
    ensures tokens == [] ==> r == (Failure(NoInputProvided), tokens)
    ensures tokens != [] ==>
      (r.0.Success? <==> ParseShortNumber(tokens[0]).Some? && p.min <= ParseShortNumber(tokens[0]).value <= p.max)
    ensures r.0.Success? ==>
      && tokens != [] && r.1 == tokens[1..]
      && Some(r.0.value) == ParseShortNumber(tokens[0]) && p.min <= r.0.value <= p.max
    ensures r.0.Failure? ==> r.1 == tokens
    ensures r.0.Failure? && tokens != [] ==> r.0.error == ShortParseFailure(tokens[0], p.min, p.max)
  {
    if tokens == [] then (Failure(NoInputProvided), tokens)
    else
      var input := tokens[0];
      match ParseShortNumber(input)
      case None => (Failure(ShortParseFailure(input, p.min, p.max)), tokens)
      case Some(value) =>
        if value < p.min || value > p.max then (Failure(ShortParseFailure(input, p.min, p.max)), tokens)
        else (Success(value), tokens[1..])
  }

  /** `ShortParser.parse`, peeking and then removing the head of the queue. */
  method ParseQueue(p: ShortParser, queue: TokenQueue) returns (r: ParseResult)
    modifies queue
    ensures (r, queue.tokens) == Parse(p, old(queue.tokens))
  {
    if queue.tokens == [] {
      return Failure(NoInputProvided);
    }
    var input := queue.Peek();
    var parsed := ParseShortNumber(input);
    if parsed.None? || parsed.value < p.min || parsed.value > p.max {
      return Failure(ShortParseFailure(input, p.min, p.max));
    }
    queue.Remove();
    r := Success(parsed.value);
  }

  /** Every value in range, written in decimal, parses back to itself and consumes one token. */
  lemma {:induction false} ParseRoundTrip(p: ShortParser, v: Short, rest: seq<string>)
    requires p.min <= v <= p.max
    ensures Parse(p, [IntToString(v)] + rest) == (Success(v), rest)
  {
    ParseDecimalRoundTrip(v);
    var tokens := [IntToString(v)] + rest;
    assert tokens[1..] == rest;
  }

  /** A parser whose minimum exceeds its maximum accepts nothing and never consumes. */
  lemma EmptyRangeRejects(p: ShortParser, tokens: seq<string>)
    requires p.min > p.max
    ensures Parse(p, tokens).0.Failure? && Parse(p, tokens).1 == tokens
  {
  }

  /** The default range accepts exactly the tokens `Short.parseShort` accepts. */
  lemma DefaultRangeIsShortParse(s: string, rest: seq<string>)
    ensures Parse(ShortParser(DEFAULT_MINIMUM, DEFAULT_MAXIMUM), [s] + rest).0.Success?
        <==> ParseShortNumber(s).Some?
  {
  }

  /** Concrete cases: "3" parses, "40000" overflows a short and "abc" is not a number. */
  lemma ParseExamples()
    ensures Parse(ShortParser(DEFAULT_MINIMUM, DEFAULT_MAXIMUM), ["3", "x"]) == (Success(3), ["x"])
    ensures Parse(ShortParser(DEFAULT_MINIMUM, DEFAULT_MAXIMUM), ["40000"]).0.Failure?
    ensures Parse(ShortParser(0, 10), ["abc"]) == (Failure(ShortParseFailure("abc", 0, 10)), ["abc"])
    ensures Parse(ShortParser(0, 10), ["-1"]).0.Failure?
  {
    assert ParseDecimal("3") == Some(3) by { assert AllDigits("3"); }
    assert ParseDecimal("40000") == Some(40000) by {
      assert AllDigits("40000");
      assert "40000"[..4] == "4000" && "4000"[..3] == "400" && "400"[..2] == "40" && "40"[..1] == "4";
    }
    assert ParseDecimal("-1") == Some(-1) by { assert "-1"[1..] == "1"; assert AllDigits("1"); }
    assert !IsAsciiDigit('a');
  }

  /** The built argument: its name and the range given to its parser. */
  datatype ShortArgumentValue = ShortArgumentValue(name: string, min: Short, max: Short)
  {
    function Parser(): ShortParser
    {
      ShortParser(min, max)
    }
  }

  /** `ShortArgument.Builder`. */
  class Builder {
    const name: string
    var min: Short
    var max: Short

    /** A new builder starts from the default range. */
    constructor (name: string)
      ensures this.name == name && min == DEFAULT_MINIMUM && max == DEFAULT_MAXIMUM
    {
      this.name := name;
      min := DEFAULT_MINIMUM;
      max := DEFAULT_MAXIMUM;
    }

    /** `withMin`. */
    method WithMin(min: Short)
      modifies this`min
      ensures this.min == min
    {
      this.min := min;
    }

    /** `withMax`. */
    method WithMax(max: Short)
      modifies this`max
      ensures this.max == max
    {
      this.max := max;
    }

    /** `build()`: the argument with this name and range. */
    function Build(): (a: ShortArgumentValue)
      reads this
      ensures a.name == name && a.Parser() == ShortParser(min, max)
      ensures a.Parser().HasMin() <==> min != -0x8000
      ensures a.Parser().HasMax() <==> max != 0x7FFF
    {
      ShortArgumentValue(name, min, max)
    }
  }

  /** A builder left at its defaults gives a parser with neither a minimum nor a maximum set. */
  method BuildDefault(name: string) returns (a: ShortArgumentValue)
    ensures a.name == name && !a.Parser().HasMin() && !a.Parser().HasMax()
    ensures a.Parser() == ShortParser(-0x8000, 0x7FFF)
  {
    var b := new Builder(name);
    a := b.Build();
  }
}
