/**
 * `BrigadierSuggestionFactory.buildSuggestions`: turn the text Brigadier asks
 * about into a Cloud command line, ask Cloud for suggestions, drop those that
 * duplicate sibling literals, and hand the rest to Brigadier's builder with a
 * tooltip naming the component.
 */
module BrigadierSuggestions {
  import opened Wrappers
  import opened JavaLang

  // ---------------------------------------------------------------------
  // Brigadier's suggestion builder
  // ---------------------------------------------------------------------

  /** A suggestion as Brigadier holds it: the replaced range, the text and the tooltip. */
  datatype Suggestion = Suggestion(rangeStart: nat, rangeEnd: nat, text: string, tooltip: string)

  /** Brigadier's `SuggestionsBuilder`: the whole input, where the replaced part starts, the suggestions so far. */
  datatype SuggestionsBuilder = SuggestionsBuilder(input: string, start: nat, entries: seq<Suggestion>)
  {
    predicate Valid() {
      start <= |input|
    }

    /** `getRemaining()`: the input from the start on. */
    function Remaining(): (s: string)
      requires Valid()
      ensures input == input[..start] + s
    {
      input[start..]
    }

    /** `createOffset(start)`: a fresh builder over the same input. */
    function CreateOffset(newStart: nat): (b: SuggestionsBuilder)
      requires newStart <= |input|
      ensures b.Valid() && b.input == input && b.start == newStart && b.entries == []
    {
      SuggestionsBuilder(input, newStart, [])
    }

    /**
     * `suggest(text, tooltip)`: a suggestion over the rest of the input,
     * skipped when it is exactly the text already there.
     */
    function Suggest(text: string, tooltip: string): (b: SuggestionsBuilder)
      requires Valid()
      ensures b.Valid() && b.input == input && b.start == start
      ensures text == Remaining() ==> b.entries == entries
      ensures text != Remaining() ==> b.entries == entries + [Suggestion(start, |input|, text, tooltip)]
    {
      if text == Remaining() then this
      else this.(entries := entries + [Suggestion(start, |input|, text, tooltip)])
    }
  }

  type ValidBuilder = b: SuggestionsBuilder | b.Valid() witness SuggestionsBuilder("", 0, [])

  // ---------------------------------------------------------------------
  // The command line
  // ---------------------------------------------------------------------

  /** How the sender was obtained. */
  datatype SenderMode =
    | DummySender                     // no sender mapper, or no Brigadier context
    | MappedSender(firstNodeStart: nat) // the start of the first parsed node's range

  datatype Crash = StringIndexOutOfBounds | ArrayIndexOutOfBounds

  /** Drop one leading '/', as typed in Minecraft chat. */
  function StripSlash(command: string): (r: string)
    ensures |command| > 0 && command[0] == '/' ==> command == "/" + r
    ensures !(|command| > 0 && command[0] == '/') ==> r == command
  {
    if |command| > 0 && command[0] == '/' then command[1..] else command
  }

  /** The command line before the namespace is removed (`substring` throws past the end). */
  function CommandLine(mode: SenderMode, input: string): (r: Result<string, Crash>)
    ensures mode.DummySender? ==> r == Success(StripSlash(input))
    ensures mode.MappedSender? ==>
      (r.Success? <==> mode.firstNodeStart <= |input|)
      && (r.Success? ==> input == input[..mode.firstNodeStart] + r.value)
  {
    match mode
    case DummySender => Success(StripSlash(input))
    case MappedSender(k) => if k <= |input| then Success(input[k..]) else Failure(StringIndexOutOfBounds)
  }

  /** The first space-separated word, with no space in it. */
  function FirstWord(command: string): (w: string)
    ensures !Contains(w, ' ')
    ensures w <= command
    ensures |w| < |command| ==> command[|w|] == ' '
  {
    if Contains(command, ' ') then command[..IndexOf(command, ' ')] else command
  }

  /** Whether s is non-empty and consists of c only. */
  predicate OnlyOf(s: string, c: char) {
    |s| > 0 && forall i :: 0 <= i < |s| ==> s[i] == c
  }

  /**
   * The namespace removal as written: `command.split(" ")[0]` and
   * `leading.split(":")[0]` both index arrays that Java leaves empty when the
   * string consists of separators only. It crashes exactly when the command
   * is all spaces or its first word is all colons.
   */
  function StripNamespaceAsWritten(command: string): (r: Result<string, Crash>)
    ensures r.Failure? <==> OnlyOf(command, ' ') || OnlyOf(FirstWord(command), ':')
    ensures r.Failure? ==> r.error == ArrayIndexOutOfBounds
  {
    match SplitFirst(command, ' ')
    case None => Failure(ArrayIndexOutOfBounds)
    case Some(leading) =>
      assert leading == FirstWord(command);
      if !Contains(leading, ':') then Success(command)
      else match SplitFirst(leading, ':')
        case None => Failure(ArrayIndexOutOfBounds)
        case Some(namespace) =>
          assert |namespace| < |leading| <= |command|;
          Success(command[|namespace| + 1..])
  }

  /**
   * The namespace removal as intended: when the first word holds a ':', drop
   * everything up to and including the first ':'.
   */
  function StripNamespace(command: string): (r: string)
    ensures Contains(FirstWord(command), ':') ==> command == command[..IndexOf(command, ':') + 1] + r
    ensures !Contains(FirstWord(command), ':') ==> r == command
  {
    var leading := FirstWord(command);
    if Contains(leading, ':') then
      FirstColonOfPrefix(command, leading);
      command[IndexOf(leading, ':') + 1..]
    else command
  }

  /** The first ':' of a prefix that holds one is the first ':' of the whole string. */
  lemma FirstColonOfPrefix(command: string, prefix: string)
    requires prefix <= command && Contains(prefix, ':')
    ensures IndexOf(prefix, ':') == IndexOf(command, ':')
  {
    var j := IndexOf(prefix, ':');
    assert command[j] == ':';
    assert forall i :: 0 <= i < j ==> command[i] == prefix[i];
    IndexOfIs(command, ':', j);
  }

  /** An index holding c with no c before it is `indexOf(c)`. */
  lemma IndexOfIs(s: string, c: char, k: nat)
    requires k < |s| && s[k] == c
    requires forall j :: 0 <= j < k ==> s[j] != c
    ensures IndexOf(s, c) == k
  {
    assert Contains(s, c);
  }

  /** An index holding c with no c after it is `lastIndexOf(c)`. */
  lemma LastIndexOfIs(s: string, c: char, k: nat)
    requires k < |s| && s[k] == c
    requires forall j :: k < j < |s| ==> s[j] != c
    ensures LastIndexOf(s, c) == k
  {
    assert Contains(s, c);
  }

  /** Where the code as written does not crash, it computes the intended result. */
  lemma {:induction false} StripNamespaceAgrees(command: string)
    requires StripNamespaceAsWritten(command).Success?
    ensures StripNamespaceAsWritten(command).value == StripNamespace(command)
  {
    var leading := SplitFirst(command, ' ').value;
    assert leading == FirstWord(command);
    if Contains(leading, ':') {
      var namespace := SplitFirst(leading, ':').value;
      assert namespace == leading[..IndexOf(leading, ':')];
    }
  }

  /** "/ " in chat and a first word of colons only crash the code as written; the intended removal does not. */
  lemma StripNamespaceCrashes()
    ensures StripSlash("/ ") == " "
    ensures StripNamespaceAsWritten(" ") == Failure(ArrayIndexOutOfBounds)
    ensures StripNamespaceAsWritten(":") == Failure(ArrayIndexOutOfBounds)
    ensures StripNamespace(" ") == " " && StripNamespace(":") == ""
  {
    IndexOfIs(" ", ' ', 0);
    assert FirstWord(" ") == "";
    assert !Contains("", ':');
    IndexOfIs(":", ':', 0);
    assert FirstWord(":") == ":" by { assert !Contains(":", ' ') by { assert ":"[0] != ' '; } }
  }

  /** The namespace of a namespaced command goes; other commands are kept. */
  lemma StripNamespaceExamples()
    ensures StripNamespace("mc:tp x") == "tp x"
    ensures StripNamespace("give a:b") == "give a:b"
  {
    NamespacedExample();
    PlainExample();
  }

  lemma NamespacedExample()
    ensures StripNamespace("mc:tp x") == "tp x"
  {
    var c := "mc:tp x";
    assert c[5] == ' ' && c[0] != ' ' && c[1] != ' ' && c[2] != ' ' && c[3] != ' ' && c[4] != ' ';
    IndexOfIs(c, ' ', 5);
    var w := c[..5];
    assert FirstWord(c) == w;
    assert w[2] == ':' && w[0] != ':' && w[1] != ':';
    IndexOfIs(w, ':', 2);
    assert Contains(w, ':');
    assert StripNamespace(c) == c[3..];
  }

  lemma PlainExample()
    ensures StripNamespace("give a:b") == "give a:b"
  {
    var d := "give a:b";
    IndexOfIs(d, ' ', 4);
    assert FirstWord(d) == "give";
    assert !Contains("give", ':');
  }

  // ---------------------------------------------------------------------
  // Filtering, offset and tooltips
  // ---------------------------------------------------------------------

  /** The parent node: for each child whose component is not null, that component's aliases. */
  datatype ParentNode = ParentNode(childAliases: seq<seq<string>>)

  /** Every alias of every child of the parent. */
  function SiblingLiterals(parent: ParentNode): (s: set<string>)
    ensures forall a :: a in s <==> exists i :: 0 <= i < |parent.childAliases| && a in parent.childAliases[i]
  {
    set i, a | 0 <= i < |parent.childAliases| && a in parent.childAliases[i] :: a
  }

  /** `removeIf(x -> x in bad)` on a list, keeping the order of what remains. */
  function RemoveIf(xs: seq<string>, bad: set<string>): (r: seq<string>)
    ensures |r| <= |xs|
    ensures forall x :: x in r <==> x in xs && x !in bad
  {
    if xs == [] then []
    else
      var init := RemoveIf(xs[..|xs| - 1], bad);
      var x := xs[|xs| - 1];
      assert xs == xs[..|xs| - 1] + [x];
      if x in bad then init else init + [x]
  }

  /** Every entry that is not removed survives as often as it occurs; the removed ones not at all. */
  lemma {:induction false} RemoveIfCounts(xs: seq<string>, bad: set<string>)
    ensures forall x :: multiset(RemoveIf(xs, bad))[x] == if x in bad then 0 else multiset(xs)[x]
  {
    if xs != [] {
      var init := xs[..|xs| - 1];
      var y := xs[|xs| - 1];
      RemoveIfCounts(init, bad);
      assert xs == init + [y];
      assert multiset(xs) == multiset(init) + multiset{y};
    }
  }

  /** One entry survives exactly when it is not removed. */
  lemma RemoveIfOne(x: string, bad: set<string>)
    ensures RemoveIf([x], bad) == if x in bad then [] else [x]
  {
    assert [x][..0] == [];
  }

  /** Filtering a list with one more entry: the survivors so far, then that entry unless it is removed. */
  lemma RemoveIfSnoc(xs: seq<string>, y: string, bad: set<string>)
    ensures RemoveIf(xs + [y], bad) == RemoveIf(xs, bad) + if y in bad then [] else [y]
  {
    assert (xs + [y])[..|xs + [y]| - 1] == xs;
  }

  /**
   * Filtering distributes over concatenation: the survivors of a + b are the
   * survivors of a followed by those of b, so their order is kept.
   */
  lemma {:induction false} RemoveIfConcat(a: seq<string>, b: seq<string>, bad: set<string>)
    ensures RemoveIf(a + b, bad) == RemoveIf(a, bad) + RemoveIf(b, bad)
  {
    if b == [] {
      assert a + b == a;
    } else {
      var init := b[..|b| - 1];
      var y := b[|b| - 1];
      var tail: seq<string> := if y in bad then [] else [y];
      assert b == init + [y];
      assert a + b == (a + init) + [y];
      calc {
        RemoveIf(a + b, bad);
        RemoveIf((a + init) + [y], bad);
        { RemoveIfSnoc(a + init, y, bad); }
        RemoveIf(a + init, bad) + tail;
        { RemoveIfConcat(a, init, bad); }
        (RemoveIf(a, bad) + RemoveIf(init, bad)) + tail;
        RemoveIf(a, bad) + (RemoveIf(init, bad) + tail);
        { RemoveIfSnoc(init, y, bad); }
        RemoveIf(a, bad) + RemoveIf(b, bad);
      }
    }
  }

  /** Removing nothing keeps the list as it is. */
  lemma {:induction false} RemoveIfNothing(xs: seq<string>)
    ensures RemoveIf(xs, {}) == xs
  {
    if xs != [] {
      RemoveIfNothing(xs[..|xs| - 1]);
      assert xs == xs[..|xs| - 1] + [xs[|xs| - 1]];
    }
  }

  /**
   * The suggestions less those that repeat a sibling literal, each other one
   * kept as often as it occurs; all of them at the root.
   */
  function FilterSiblings(suggestions: seq<string>, parent: Option<ParentNode>): (r: seq<string>)
    ensures parent.None? ==> r == suggestions
    ensures parent.Some? ==> forall x :: x in r <==> x in suggestions && x !in SiblingLiterals(parent.value)
    ensures parent.Some? ==> forall x ::
      multiset(r)[x] == if x in SiblingLiterals(parent.value) then 0 else multiset(suggestions)[x]
  {
    match parent
    case None => suggestions
    case Some(p) =>
      RemoveIfCounts(suggestions, SiblingLiterals(p));
      RemoveIf(suggestions, SiblingLiterals(p))
  }

  /** The filter keeps the order of the suggestions: it distributes over concatenation. */
  lemma FilterSiblingsConcat(a: seq<string>, b: seq<string>, parent: Option<ParentNode>)
    ensures FilterSiblings(a + b, parent) == FilterSiblings(a, parent) + FilterSiblings(b, parent)
  {
    if parent.Some? {
      RemoveIfConcat(a, b, SiblingLiterals(parent.value));
    }
  }

  /** One suggestion survives the filter exactly when it is not a sibling literal. */
  lemma FilterSiblingsOne(x: string, parent: Option<ParentNode>)
    ensures FilterSiblings([x], parent) == if parent.Some? && x in SiblingLiterals(parent.value) then [] else [x]
  {
    if parent.Some? {
      RemoveIfOne(x, SiblingLiterals(parent.value));
    }
  }

  /**
   * The builder the suggestions go to: an offset one past the last space of
   * the remaining text, when there is such a space.
   */
  function OffsetBuilder(b: ValidBuilder): (r: ValidBuilder)
    ensures r.input == b.input && b.start <= r.start
    ensures !Contains(r.Remaining(), ' ')
    ensures !Contains(b.Remaining(), ' ') ==> r == b
    ensures Contains(b.Remaining(), ' ') ==>
      r.entries == [] && r.start > b.start && b.input[r.start - 1] == ' '
  {
    var k := LastIndexOf(b.Remaining(), ' ');
    if k == -1 then b
    else
      var r := b.CreateOffset(b.start + k + 1);
      assert r.Remaining() == b.Remaining()[k + 1..];
      r
  }

  /** The type of a component. */
  datatype ComponentType = LiteralComponent | ArgumentComponent

  /** The attributes of the component the tooltip names. */
  datatype Component = Component(name: string, kind: ComponentType, required: bool)

  /** A literal is named as it is; a required argument in angle brackets, an optional one in square brackets. */
  function Tooltip(component: Component): (t: string)
    ensures component.kind.LiteralComponent? ==> t == component.name
    ensures component.kind.ArgumentComponent? ==>
      |t| == |component.name| + 2 && t[1..|t| - 1] == component.name
      && (t[0] == '<' <==> component.required) && (t[0] == '[' <==> !component.required)
      && (t[|t| - 1] == '>' <==> component.required) && (t[|t| - 1] == ']' <==> !component.required)
  {
    var name := component.name;
    if component.kind.LiteralComponent? then name
    else if component.required then "<" + name + ">"
    else "[" + name + "]"
  }

  // ---------------------------------------------------------------------
  // Building the suggestions
  // ---------------------------------------------------------------------

  /** The suggestions `suggest` adds to b, one per text, each with the tooltip. */
  function Added(b: ValidBuilder, texts: seq<string>, tooltip: string): (r: seq<Suggestion>)
    ensures |r| <= |texts|
    ensures forall s :: s in r ==> s.text in texts && s.text != b.Remaining()
  {
    if texts == [] then []
    else
      var last := texts[|texts| - 1];
      Added(b, texts[..|texts| - 1], tooltip)
        + if last == b.Remaining() then [] else [Suggestion(b.start, |b.input|, last, tooltip)]
  }

  /** The texts of some suggestions. */
  function Texts(ss: seq<Suggestion>): (r: seq<string>)
    ensures |r| == |ss| && forall i :: 0 <= i < |ss| ==> r[i] == ss[i].text
  {
    seq(|ss|, i requires 0 <= i < |ss| => ss[i].text)
  }

  /**
   * What is added: every text but the one already typed, in order, each
   * replacing the rest of the input and carrying the tooltip.
   */
  lemma {:induction false} AddedMeaning(b: ValidBuilder, texts: seq<string>, tooltip: string)
    ensures Texts(Added(b, texts, tooltip)) == RemoveIf(texts, {b.Remaining()})
    ensures forall s :: s in Added(b, texts, tooltip) ==>
      s.rangeStart == b.start && s.rangeEnd == |b.input| && s.tooltip == tooltip
  {
    if texts != [] {
      var init := texts[..|texts| - 1];
      AddedMeaning(b, init, tooltip);
      var last := texts[|texts| - 1];
      if last != b.Remaining() {
        var s := Suggestion(b.start, |b.input|, last, tooltip);
        assert Texts(Added(b, init, tooltip) + [s]) == Texts(Added(b, init, tooltip)) + [last];
      }
    }
  }

  /** The loop of `suggest` calls. */
  method SuggestAll(b: ValidBuilder, texts: seq<string>, tooltip: string) returns (r: ValidBuilder)
    ensures r.input == b.input && r.start == b.start
    ensures r.entries == b.entries + Added(b, texts, tooltip)
  {
    r := b;
    var i := 0;
    while i < |texts|
      invariant 0 <= i <= |texts|
      invariant r.input == b.input && r.start == b.start
      invariant r.entries == b.entries + Added(b, texts[..i], tooltip)
    {
      assert texts[..i + 1][..i] == texts[..i];
      r := r.Suggest(texts[i], tooltip);
      i := i + 1;
    }
    assert texts[..i] == texts;
  }

  /**
   * `buildSuggestions`: `provider` stands for `suggestFuture`, the
   * suggestions Cloud computes for a command line.
   */
  method BuildSuggestions(
    mode: SenderMode, parent: Option<ParentNode>, component: Component,
    builder: ValidBuilder, provider: string -> seq<string>
  ) returns (r: Result<ValidBuilder, Crash>)
    ensures r.Failure? <==> CommandLine(mode, builder.input).Failure?
    ensures r.Success? ==>
      var command := StripNamespace(CommandLine(mode, builder.input).value);
      var target := OffsetBuilder(builder);
      r.value.input == builder.input && r.value.start == target.start
      && r.value.entries == target.entries
         + Added(target, FilterSiblings(provider(command), parent), Tooltip(component))
  {
    var line := CommandLine(mode, builder.input);
    if line.Failure? {
      return Failure(line.error);
    }
    var command := StripNamespace(line.value);
    var suggestions := FilterSiblings(provider(command), parent);
    var target := OffsetBuilder(builder);
    var built := SuggestAll(target, suggestions, Tooltip(component));
    r := Success(built);
  }

  /**
   * Typing "give @p ite" with a sibling literal "item" among the parent's
   * children: the duplicate is dropped, and the rest replace "ite".
   */
  method BuildExample() returns (r: Result<ValidBuilder, Crash>)
    ensures r.Success? && r.value.start == 8
    ensures r.value.entries == [Suggestion(8, 11, "iter", "<item>")]
  {
    var builder := SuggestionsBuilder("give @p ite", 5, []);
    var parent := Some(ParentNode([["item", "it"], []]));
    var component := Component("item", ArgumentComponent, true);
    ExampleOffset();
    ExampleFilter();
    ExampleAdded();
    r := BuildSuggestions(DummySender, parent, component, builder, (c: string) => ["item", "iter"]);
  }

  lemma ExampleOffset()
    ensures OffsetBuilder(SuggestionsBuilder("give @p ite", 5, [])) == SuggestionsBuilder("give @p ite", 8, [])
  {
    var rem := SuggestionsBuilder("give @p ite", 5, []).Remaining();
    assert rem == "@p ite";
    LastIndexOfIs(rem, ' ', 2);
  }

  lemma ExampleFilter()
    ensures FilterSiblings(["item", "iter"], Some(ParentNode([["item", "it"], []]))) == ["iter"]
  {
    var siblings := SiblingLiterals(ParentNode([["item", "it"], []]));
    assert "item" in siblings by { assert "item" in [["item", "it"], []][0]; }
    assert "iter" !in siblings;
    assert ["item", "iter"][..1] == ["item"];
    assert ["item"][..0] == [];
  }

  lemma ExampleAdded()
    ensures Added(SuggestionsBuilder("give @p ite", 8, []), ["iter"], Tooltip(Component("item", ArgumentComponent, true)))
         == [Suggestion(8, 11, "iter", "<item>")]
  {
    assert Tooltip(Component("item", ArgumentComponent, true)) == "<item>";
    assert SuggestionsBuilder("give @p ite", 8, []).Remaining() == "ite";
    assert ["iter"][..0] == [];
  }
}
