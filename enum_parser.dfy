/**
 * `EnumParser`: parses one token into a constant of an enum class, matching
 * display names without regard to case, and suggests those display names.
 */
module EnumParser {
  import opened Wrappers
  import opened JavaLang
  import opened Input

  /**
   * An enum constant: its `name()` and, when the enum implements
   * `EnumParseable`, the display name its own `displayName()` returns.
   */
  datatype EnumConstant = EnumConstant(name: string, ownDisplayName: Option<string>)

  /** An enum class: its name and its constants in declaration order (`EnumSet.allOf` order). */
  datatype EnumClass = EnumClass(className: string, constants: seq<EnumConstant>)

  /** An `EnumParseable`: the constant itself, or the `DummyEnumParseable` wrapper around it. */
  datatype EnumParseable =
    | SelfParseable(constant: EnumConstant)
    | DummyEnumParseable(value: EnumConstant)
  {
    /** `value()`. */
    function Value(): EnumConstant
    {
      match this
      case SelfParseable(c) => c
      case DummyEnumParseable(c) => c
    }

    /** `displayName()`: the constant's own, or for the wrapper the name lower-cased. */
    function DisplayName(): string
    {
      match this
      case SelfParseable(c) => if c.ownDisplayName.Some? then c.ownDisplayName.value else ToLowerCase(c.name)
      case DummyEnumParseable(c) => ToLowerCase(c.name)
    }
  }

  /** `EnumParseable.of(value)`: the value itself when it is parseable, else a wrapper. */
  function ParseableOf(c: EnumConstant): (ep: EnumParseable)
    ensures ep.SelfParseable? <==> c.ownDisplayName.Some?
    ensures ep.Value() == c
    ensures c.ownDisplayName.Some? ==> ep.DisplayName() == c.ownDisplayName.value
    ensures c.ownDisplayName.None? ==> ep.DisplayName() == ToLowerCase(c.name)
  {
    if c.ownDisplayName.Some? then SelfParseable(c) else DummyEnumParseable(c)
  }

  function DisplayNameOf(c: EnumConstant): string {
    ParseableOf(c).DisplayName()
  }

  predicate Matches(c: EnumConstant, token: string) {
    EqualsIgnoreCase(DisplayNameOf(c), token)
  }

  /** `stringSuggestions`: the display names of all constants in declaration order. */
  function StringSuggestions(cls: EnumClass, input: seq<string>): (r: seq<string>)
    ensures |r| == |cls.constants|
    ensures forall i :: 0 <= i < |r| ==> r[i] == DisplayNameOf(cls.constants[i])
  {
    DisplayNames(cls.constants)
  }

  function DisplayNames(cs: seq<EnumConstant>): (r: seq<string>)
    ensures |r| == |cs|
    ensures forall i :: 0 <= i < |r| ==> r[i] == DisplayNameOf(cs[i])
  {
    if cs == [] then [] else [DisplayNameOf(cs[0])] + DisplayNames(cs[1..])
  }

  /** The suggestions do not depend on what has been typed. */
  lemma SuggestionsIgnoreInput(cls: EnumClass, a: seq<string>, b: seq<string>)
    ensures StringSuggestions(cls, a) == StringSuggestions(cls, b)
  {
  }

  /** `Collectors.joining(sep)`. */
  function Join(parts: seq<string>, sep: string): string {
    if parts == [] then ""
    else if |parts| == 1 then parts[0]
    else parts[0] + sep + Join(parts[1..], sep)
  }

  /** Joining one more part appends the separator and that part. */
  lemma {:induction false} JoinAppend(parts: seq<string>, sep: string, x: string)
    requires parts != []
    ensures Join(parts + [x], sep) == Join(parts, sep) + sep + x
  {
    if |parts| == 1 {
      assert (parts + [x])[1..] == [x];
    } else {
      assert (parts + [x])[1..] == parts[1..] + [x];
      JoinAppend(parts[1..], sep, x);
    }
  }

  /** Identifies the command context a failure was raised in. */
  type ContextId = nat

  /** `EnumParseException`: the rejected token, the enum class and the context. */
  datatype EnumParseException = EnumParseException(input: string, enumClass: EnumClass, context: ContextId)
  {
    /** `join(enumClass)`: the acceptable values, as the display names joined by ", ". */
    function AcceptableValues(): string
    {
      Join(StringSuggestions(enumClass, []), ", ")
    }

    /** The caption variables the exception carries, in order: the token, then the acceptable values. */
    function CaptionVariables(): (vs: seq<(string, string)>)
      ensures |vs| == 2 && vs[0] == ("input", input) && vs[1].0 == "acceptableValues"
    {
      [("input", input), ("acceptableValues", AcceptableValues())]
    }

    /** `equals`: the input and the enum class decide; the context does not. */
    predicate Equals(that: EnumParseException)
    {
      input == that.input && enumClass == that.enumClass
    }
  }

  /** Exception equality is an equivalence that ignores the context. */
  lemma ExceptionEqualityIsEquivalence(a: EnumParseException, b: EnumParseException, c: EnumParseException)
    ensures a.Equals(a)
    ensures a.Equals(b) <==> b.Equals(a)
    ensures a.Equals(b) && b.Equals(c) ==> a.Equals(c)
    ensures a.Equals(b) <==> a.(context := b.context) == b
  {
  }

  /** k is the position of the first constant, in declaration order, matching the token. */
  predicate IsFirstMatch(cs: seq<EnumConstant>, token: string, k: int) {
    0 <= k < |cs| && Matches(cs[k], token) && forall j :: 0 <= j < k ==> !Matches(cs[j], token)
  }

  /** The index of the first constant from i on whose display name matches the token, or -1. */
  function FirstMatchFrom(cs: seq<EnumConstant>, token: string, i: nat): (k: int)
    requires i <= |cs|
    ensures k == -1 || i <= k < |cs|
    ensures k == -1 <==> forall j :: i <= j < |cs| ==> !Matches(cs[j], token)
    ensures k >= 0 ==> Matches(cs[k], token) && forall j :: i <= j < k ==> !Matches(cs[j], token)
    decreases |cs| - i
  {
    if i == |cs| then -1
    else if Matches(cs[i], token) then i
    else FirstMatchFrom(cs, token, i + 1)
  }

  /** `parse`: one token is read; the first matching constant, or a failure naming the token. */
  function Parse(cls: EnumClass, context: ContextId, tokens: seq<string>): (r: (Result<EnumConstant, EnumParseException>, seq<string>))
    ensures r.1 == if tokens == [] then [] else tokens[1..]
    ensures var token := if tokens == [] then "" else tokens[0];
      && (r.0.Success? <==> exists j :: 0 <= j < |cls.constants| && Matches(cls.constants[j], token))
      && (r.0.Success? ==> exists k :: IsFirstMatch(cls.constants, token, k) && r.0.value == cls.constants[k])
      && (r.0.Failure? ==> r.0.error == EnumParseException(token, cls, context))
  {
    var token := if tokens == [] then "" else tokens[0];
    var rest := if tokens == [] then [] else tokens[1..];
    var k := FirstMatchFrom(cls.constants, token, 0);
    if k >= 0 then (Success(cls.constants[k]), rest)
    else (Failure(EnumParseException(token, cls, context)), rest)
  }

  /** `parse` on the command input: read a token, then try the constants in order. */
  method ParseInput(cls: EnumClass, context: ContextId, input: TokenQueue)
    returns (r: Result<EnumConstant, EnumParseException>)
    modifies input
    ensures (r, input.tokens) == Parse(cls, context, old(input.tokens))
  {
    var token := input.ReadString();
    var i := 0;
    while i < |cls.constants|
      invariant 0 <= i <= |cls.constants|
      invariant forall j :: 0 <= j < i ==> !Matches(cls.constants[j], token)
    {
      var parseable := ParseableOf(cls.constants[i]);
      if EqualsIgnoreCase(parseable.DisplayName(), token) {
        assert FirstMatchFrom(cls.constants, token, 0) == i;
        return Success(cls.constants[i]);
      }
      i := i + 1;
    }
    r := Failure(EnumParseException(token, cls, context));
  }

  /** Every suggestion, read back as a token, parses successfully and consumes exactly it. */
  lemma SuggestionsParse(cls: EnumClass, context: ContextId, i: nat, rest: seq<string>, typed: seq<string>)
    requires i < |cls.constants|
    ensures var s := StringSuggestions(cls, typed)[i];
      Parse(cls, context, [s] + rest).0.Success? && Parse(cls, context, [s] + rest).1 == rest
  {
    var s := StringSuggestions(cls, typed)[i];
    EqualsIgnoreCaseReflexive(s);
    assert Matches(cls.constants[i], ([s] + rest)[0]);
  }

  /** A constant without its own display name is accepted under its name in any case. */
  lemma NameParsesInAnyCase(cls: EnumClass, context: ContextId, i: nat, token: string, rest: seq<string>)
    requires i < |cls.constants| && cls.constants[i].ownDisplayName.None?
    requires forall j :: 0 <= j < i ==> !Matches(cls.constants[j], token)
    requires EqualsIgnoreCase(token, cls.constants[i].name)
    ensures Parse(cls, context, [token] + rest) == (Success(cls.constants[i]), rest)
  {
    var c := cls.constants[i];
    var tokens := [token] + rest;
    assert tokens[0] == token && tokens[1..] == rest;
    forall k | 0 <= k < |token| ensures ToLowerChar(DisplayNameOf(c)[k]) == ToLowerChar(token[k]) {
      assert DisplayNameOf(c)[k] == ToLowerChar(c.name[k]);
    }
    assert Matches(c, token);
    assert FirstMatchFrom(cls.constants, token, 0) == i;
  }

  /** An enum RED, GREEN, BLUE without display names of its own. */
  function Colour(): EnumClass {
    EnumClass("Colour", [EnumConstant("RED", None), EnumConstant("GREEN", None), EnumConstant("BLUE", None)])
  }

  lemma ColourNames()
    ensures DisplayNames(Colour().constants) == ["red", "green", "blue"]
  {
    assert ToLowerCase("RED") == "red" by {
      var r := ToLowerCase("RED");
      assert r[0] == 'r' && r[1] == 'e' && r[2] == 'd';
    }
    assert ToLowerCase("GREEN") == "green" by {
      var g := ToLowerCase("GREEN");
      assert g[0] == 'g' && g[1] == 'r' && g[2] == 'e' && g[3] == 'e' && g[4] == 'n';
    }
    assert ToLowerCase("BLUE") == "blue" by {
      var b := ToLowerCase("BLUE");
      assert b[0] == 'b' && b[1] == 'l' && b[2] == 'u' && b[3] == 'e';
    }
    var names := DisplayNames(Colour().constants);
    assert names[0] == "red" && names[1] == "green" && names[2] == "blue";
  }

  /** A token equal to "RED" up to case gives RED. */
  lemma ColourRed(context: ContextId, token: string)
    requires EqualsIgnoreCase(token, "RED")
    ensures Parse(Colour(), context, [token]) == (Success(EnumConstant("RED", None)), [])
  {
    NameParsesInAnyCase(Colour(), context, 0, token, []);
  }

  /** "red" and "Red" equal "RED" up to case. */
  lemma RedSpellings()
    ensures EqualsIgnoreCase("red", "RED") && EqualsIgnoreCase("Red", "RED")
  {
    assert ToLowerChar('R') == 'r' && ToLowerChar('E') == 'e' && ToLowerChar('D') == 'd';
  }

  /** "RED", "red" and "Red" all give RED. */
  lemma ColourParsesInAnyCase(context: ContextId)
    ensures Parse(Colour(), context, ["RED"]) == (Success(EnumConstant("RED", None)), [])
    ensures Parse(Colour(), context, ["red"]) == (Success(EnumConstant("RED", None)), [])
    ensures Parse(Colour(), context, ["Red"]) == (Success(EnumConstant("RED", None)), [])
  {
    EqualsIgnoreCaseReflexive("RED");
    RedSpellings();
    ColourRed(context, "RED");
    ColourRed(context, "red");
    ColourRed(context, "Red");
  }

  /** "purple" is refused, and the failure lists "red, green, blue" as acceptable. */
  lemma ColourRejectsPurple(context: ContextId)
    ensures Parse(Colour(), context, ["purple"]).0 == Failure(EnumParseException("purple", Colour(), context))
    ensures StringSuggestions(Colour(), ["r"]) == ["red", "green", "blue"]
    ensures EnumParseException("purple", Colour(), context).AcceptableValues() == "red, green, blue"
    ensures EnumParseException("purple", Colour(), context).CaptionVariables()
         == [("input", "purple"), ("acceptableValues", "red, green, blue")]
  {
    ColourNames();
    assert !Matches(Colour().constants[0], "purple");
    assert !Matches(Colour().constants[1], "purple");
    assert !Matches(Colour().constants[2], "purple");
    var names := ["red", "green", "blue"];
    assert names[1..] == ["green", "blue"] && names[1..][1..] == ["blue"];
  }
}
