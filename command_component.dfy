/**
 * The legacy `CommandComponent`: a named, required-or-optional unit of a
 * command with its parser, a write-once owning command, and its builder.
 */
module CommandComponents {
  import opened Wrappers
  import opened JavaLang

  /** Why construction or an update was refused. */
  datatype ComponentError =
    | NullName            // "Name may not be null"
    | NameNotAlphanumeric // "Name must be alphanumeric"
    | NullParser          // "Parser may not be null"
    | OwnerAlreadySet     // "Cannot replace owning command"

  /**
   * The name check as written: `NAME_PATTERN.asPredicate()` with pattern
   * `[A-Za-z0-9]+` tests whether the pattern is FOUND somewhere in the name, so
   * one ASCII letter or digit anywhere is enough.
   */
  predicate NameAcceptedAsWritten(name: string) {
    exists i :: 0 <= i < |name| && IsAsciiAlphanumeric(name[i])
  }

  /** The name check as evidently intended: the whole name is ASCII letters and digits. */
  predicate IsAlphanumericName(name: string) {
    |name| > 0 && forall i :: 0 <= i < |name| ==> IsAsciiAlphanumeric(name[i])
  }

  /**
   * The constructor's checks, in its order, as written: a null name, then the
   * name pattern (found anywhere), then a null parser.
   */
  function CheckArgumentsAsWritten<P>(name: Option<string>, parser: Option<P>): (e: Option<ComponentError>)
    ensures e.None? <==> name.Some? && NameAcceptedAsWritten(name.value) && parser.Some?
    ensures name.None? ==> e == Some(NullName)
    ensures name.Some? && !NameAcceptedAsWritten(name.value) ==> e == Some(NameNotAlphanumeric)
    ensures name.Some? && NameAcceptedAsWritten(name.value) && parser.None? ==> e == Some(NullParser)
  {
    if name.None? then Some(NullName)
    else if !NameAcceptedAsWritten(name.value) then Some(NameNotAlphanumeric)
    else if parser.None? then Some(NullParser)
    else None
  }

  /** The constructor's checks with the name required to be alphanumeric as a whole. */
  function CheckArguments<P>(name: Option<string>, parser: Option<P>): (e: Option<ComponentError>)
    ensures e.None? <==> name.Some? && IsAlphanumericName(name.value) && parser.Some?
    ensures name.None? ==> e == Some(NullName)
    ensures name.Some? && !IsAlphanumericName(name.value) ==> e == Some(NameNotAlphanumeric)
    ensures name.Some? && IsAlphanumericName(name.value) && parser.None? ==> e == Some(NullParser)
  {
    if name.None? then Some(NullName)
    else if !IsAlphanumericName(name.value) then Some(NameNotAlphanumeric)
    else if parser.None? then Some(NullParser)
    else None
  }

  /** The written check accepts "a-b", which is not alphanumeric, and rejects "--". */
  lemma NameCheckAcceptsNonAlphanumeric<P>(parser: P)
    ensures CheckArgumentsAsWritten(Some("a-b"), Some(parser)).None?
    ensures !IsAlphanumericName("a-b")
    ensures CheckArgumentsAsWritten(Some("--"), Some(parser)) == Some(NameNotAlphanumeric)
  {
    assert IsAsciiAlphanumeric("a-b"[0]);
    assert !IsAsciiAlphanumeric("a-b"[1]);
  }

  /** The two checks agree on every alphanumeric name; they differ only by what the written one lets through. */
  lemma {:induction false} CorrectedCheckIsStricter<P>(name: Option<string>, parser: Option<P>)
    ensures CheckArguments(name, parser).None? ==> CheckArgumentsAsWritten(name, parser).None?
    ensures name.Some? && IsAlphanumericName(name.value) ==> CheckArguments(name, parser) == CheckArgumentsAsWritten(name, parser)
  {
    if name.Some? && IsAlphanumericName(name.value) {
      assert IsAsciiAlphanumeric(name.value[0]);
    }
  }

  /** A command component. `P` stands for the parser, `C` for the command. */
  class CommandComponent<P, C> {
    const required: bool
    const name: string
    const parser: P
    var owningCommand: Option<C>

    /** Construction once the checks as written have passed: no owning command yet. */
    constructor (required: bool, name: string, parser: P)
      requires NameAcceptedAsWritten(name)
      ensures this.required == required && this.name == name && this.parser == parser
      ensures owningCommand == None
    {
      this.required := required;
      this.name := name;
      this.parser := parser;
      owningCommand := None;
    }

    /** `getOwningCommand()`: None (null) until it is set. */
    function GetOwningCommand(): Option<C>
      reads this
    {
      owningCommand
    }

    /** `setOwningCommand`: succeeds once; a second call is refused and keeps the first owner. */
    method SetOwningCommand(command: C) returns (e: Option<ComponentError>)
      modifies this`owningCommand
      ensures e.None? <==> old(owningCommand).None?
      ensures e.Some? ==> e.value == OwnerAlreadySet && owningCommand == old(owningCommand)
      ensures e.None? ==> owningCommand == Some(command)
    {
      if owningCommand.Some? {
        return Some(OwnerAlreadySet);
      }
      owningCommand := Some(command);
      e := None;
    }

    /** `equals`: the required flag and the name decide; the parser and owner do not. */
    predicate Equals(that: CommandComponent<P, C>)
    {
      required == that.required && name == that.name
    }

    /** `hashCode()`: Guava's `Objects.hashCode(required, name)`. */
    function HashCode(): Int32
    {
      HashAll([BooleanHash(required), StringHash(name)])
    }
  }

  /** Component equality is an equivalence, and equal components hash alike. */
  lemma ComponentEqualityIsConsistent<P, C>(a: CommandComponent<P, C>, b: CommandComponent<P, C>, c: CommandComponent<P, C>)
    ensures a.Equals(a)
    ensures a.Equals(b) ==> b.Equals(a) && a.HashCode() == b.HashCode()
    ensures a.Equals(b) && b.Equals(c) ==> a.Equals(c)
  {
  }

  /** Setting the owner twice: the second call fails and the first owner stays. */
  method OwnerIsWriteOnce<P, C>(parser: P, first: C, second: C) returns (owner: Option<C>)
    ensures owner == Some(first)
  {
    assert IsAsciiAlphanumeric("name"[0]);
    var component := new CommandComponent<P, C>(true, "name", parser);
    var e1 := component.SetOwningCommand(first);
    var e2 := component.SetOwningCommand(second);
    assert e1.None? && e2 == Some(OwnerAlreadySet);
    owner := component.GetOwningCommand();
  }

  /** `CommandComponent.Builder`. */
  class Builder<P> {
    var name: Option<string>
    var required: bool
    var parser: Option<P>

    /** A new builder: no name, no parser, required. */
    constructor ()
      ensures name == None && required && parser == None
    {
      name := None;
      required := true;
      parser := None;
    }

    /** `named`. */
    method Named(name: string)
      modifies this`name
      ensures this.name == Some(name)
    {
      this.name := Some(name);
    }

    /** `asRequired`. */
    method AsRequired()
      modifies this`required
      ensures required
    {
      required := true;
    }

    /** `asOptional`. */
    method AsOptional()
      modifies this`required
      ensures !required
    {
      required := false;
    }

    /** `withParser`: a null parser is refused and the builder keeps its parser. */
    method WithParser(parser: Option<P>) returns (e: Option<ComponentError>)
      modifies this`parser
      ensures parser.None? ==> e == Some(NullParser) && this.parser == old(this.parser)
      ensures parser.Some? ==> e == None && this.parser == parser
    {
      if parser.None? {
        return Some(NullParser);
      }
      this.parser := parser;
      e := None;
    }

    /** `build()`: the constructor's checks as written, then a component with the builder's settings. */
    method Build<C>() returns (r: Result<CommandComponent<P, C>, ComponentError>)
      ensures r.Failure? <==> CheckArgumentsAsWritten(name, parser).Some?
      ensures r.Failure? ==> r.error == CheckArgumentsAsWritten(name, parser).value
      ensures r.Success? ==>
        && fresh(r.value) && r.value.owningCommand == None
        && Some(r.value.name) == name && r.value.required == required && Some(r.value.parser) == parser
    {
      var check := CheckArgumentsAsWritten(name, parser);
      if check.Some? {
        return Failure(check.value);
      }
      var component := new CommandComponent<P, C>(required, name.value, parser.value);
      r := Success(component);
    }
  }

  /**
   * The builder as written: a component named "a-b" is built, although the
   * corrected check refuses that name.
   */
  method BuildAcceptsNonAlphanumericName<P, C>(parser: P) returns (r: Result<CommandComponent<P, C>, ComponentError>)
    ensures r.Success? && r.value.name == "a-b" && r.value.parser == parser
    ensures CheckArguments(Some("a-b"), Some(parser)) == Some(NameNotAlphanumeric)
  {
    var builder := new Builder<P>();
    builder.Named("a-b");
    var _ := builder.WithParser(Some(parser));
    NameCheckAcceptsNonAlphanumeric(parser);
    r := builder.Build<C>();
  }
}
