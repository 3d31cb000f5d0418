/**
 * `executeCommand` and the pre-/post-processing verdicts of `CommandManager`.
 * The service pipeline that runs the registered processors and the execution
 * coordinator are opaque: each is a function parameter whose outcome is
 * either a (possibly updated) context or an exception.
 */
module Execution {
  /** The key under which `executeCommand` stores a copy of the raw input. */
  const RAW_INPUT_KEY: string := "__raw_input__"

  /**
   * The keys the accepting pre- and postprocessors set; their values are
   * defined by those processors, which are not part of this model, so only
   * their being distinct matters here.
   */
  const PREPROCESSED_INDICATOR_KEY: string := "__COMMAND_PRE_PROCESSED__"
  const POSTPROCESSED_INDICATOR_KEY: string := "__COMMAND_POST_PROCESSED__"

  /** `CommandManager.State`. */
  datatype State = Accepted | Rejected

  /** The part of a command context the processing reads: the sender and the string store. */
  datatype CommandContext<S> = CommandContext(sender: S, store: map<string, string>)

  /** What running the postprocessors through the service pipeline did. */
  datatype PipelineRun<S> = Ran(context: CommandContext<S>) | Threw(exception: string)

  /**
   * What running the preprocessors did. They share the command input queue
   * with `executeCommand` and may consume tokens from it, so besides the
   * context they leave behind what remains of the input.
   */
  datatype Preprocessing<S> =
    | Preprocessed(context: CommandContext<S>, remaining: string)
    | PreprocessingThrew(exception: string)

  /** What the execution coordinator did: hand back its future, or throw. */
  datatype CoordinatorRun<F> = Returned(future: F) | Raised(exception: string)

  /** The future `executeCommand` returns. */
  datatype ExecutionFuture<F> =
    | CompletedWithNull                       // filtered out by a preprocessor
    | Coordinated(future: F)                  // the coordinator's own future
    | CompletedExceptionally(exception: string)

  /**
   * The verdict read off a processed context: rejected exactly when the
   * indicator is absent or empty (`getOptional(key).orElse("").isEmpty()`).
   */
  function Verdict<S>(context: CommandContext<S>, indicatorKey: string): (s: State)
    ensures s == Accepted <==> indicatorKey in context.store && context.store[indicatorKey] != ""
  {
    var value := if indicatorKey in context.store then context.store[indicatorKey] else "";
    if value == "" then Rejected else Accepted
  }

  /**
   * A processing outcome: the verdict and the context the processors left
   * behind (they update it in place), or the exception they threw.
   */
  datatype Processed<S> = Decided(state: State, context: CommandContext<S>) | Thrown(exception: string)

  /** `preprocessContext`: pump the context through the preprocessors, then read their indicator. */
  function PreprocessContext<S>(
    context: CommandContext<S>, input: string,
    preprocessors: (CommandContext<S>, string) -> Preprocessing<S>
  ): (r: Processed<S>)
    ensures r.Thrown? <==> preprocessors(context, input).PreprocessingThrew?
    ensures r.Thrown? ==> r.exception == preprocessors(context, input).exception
    ensures r.Decided? ==> r.context == preprocessors(context, input).context
    ensures r.Decided? ==> (r.state == Accepted <==>
      PREPROCESSED_INDICATOR_KEY in r.context.store && r.context.store[PREPROCESSED_INDICATOR_KEY] != "")
  {
    match preprocessors(context, input)
    case PreprocessingThrew(e) => Thrown(e)
    case Preprocessed(processed, _) => Decided(Verdict(processed, PREPROCESSED_INDICATOR_KEY), processed)
  }

  /** The context a new execution starts from: the sender and a copy of the raw input. */
  function NewContext<S>(sender: S, input: string): (c: CommandContext<S>)
    ensures c.sender == sender
    ensures c.store == map[RAW_INPUT_KEY := input]
    ensures Verdict(c, PREPROCESSED_INDICATOR_KEY) == Rejected
    ensures Verdict(c, POSTPROCESSED_INDICATOR_KEY) == Rejected
  {
    CommandContext(sender, map[RAW_INPUT_KEY := input])
  }

  /**
   * `executeCommand(sender, input)`: the coordinator runs only when the
   * preprocessed context is accepted, and it is handed the same input queue
   * the preprocessors worked on, with whatever they consumed gone; a
   * rejection completes with null; an exception from the preprocessors or the
   * coordinator completes the future exceptionally.
   */
  function ExecuteCommand<S, F>(
    sender: S, input: string,
    preprocessors: (CommandContext<S>, string) -> Preprocessing<S>,
    coordinator: (CommandContext<S>, string) -> CoordinatorRun<F>
  ): (r: ExecutionFuture<F>)
    ensures r.Coordinated? ==>
      var pre := preprocessors(NewContext(sender, input), input);
      pre.Preprocessed? && Verdict(pre.context, PREPROCESSED_INDICATOR_KEY) == Accepted
      && coordinator(pre.context, pre.remaining) == Returned(r.future)
    ensures r.CompletedWithNull? <==>
      var pre := preprocessors(NewContext(sender, input), input);
      pre.Preprocessed? && Verdict(pre.context, PREPROCESSED_INDICATOR_KEY) == Rejected
    ensures
      var pre := preprocessors(NewContext(sender, input), input);
      pre.PreprocessingThrew? ==> r == CompletedExceptionally(pre.exception)
    ensures
      var pre := preprocessors(NewContext(sender, input), input);
      pre.Preprocessed? && Verdict(pre.context, PREPROCESSED_INDICATOR_KEY) == Accepted ==>
        match coordinator(pre.context, pre.remaining)
        case Returned(future) => r == Coordinated(future)
        case Raised(e) => r == CompletedExceptionally(e)
  {
    var context := NewContext(sender, input);
    match PreprocessContext(context, input, preprocessors)
    case Thrown(e) => CompletedExceptionally(e)
    case Decided(state, processed) =>
      if state == Accepted then
        match coordinator(processed, preprocessors(context, input).remaining)
        case Returned(future) => Coordinated(future)
        case Raised(e) => CompletedExceptionally(e)
      else CompletedWithNull
  }

  /** `postprocessContext`: the same, with the postprocessors and their own indicator. */
  function PostprocessContext<S, K>(
    context: CommandContext<S>, command: K,
    postprocessors: (CommandContext<S>, K) -> PipelineRun<S>
  ): (r: Processed<S>)
    ensures r.Thrown? <==> postprocessors(context, command).Threw?
    ensures r.Thrown? ==> r.exception == postprocessors(context, command).exception
    ensures r.Decided? ==> r.context == postprocessors(context, command).context
    ensures r.Decided? ==> (r.state == Accepted <==>
      POSTPROCESSED_INDICATOR_KEY in r.context.store && r.context.store[POSTPROCESSED_INDICATOR_KEY] != "")
  {
    match postprocessors(context, command)
    case Threw(e) => Thrown(e)
    case Ran(processed) => Decided(Verdict(processed, POSTPROCESSED_INDICATOR_KEY), processed)
  }

  /** Setting the preprocessors' indicator does not decide the postprocessing verdict, and vice versa. */
  lemma IndicatorsAreIndependent<S>(context: CommandContext<S>, marker: string)
    requires marker != ""
    requires POSTPROCESSED_INDICATOR_KEY !in context.store
    ensures
      var marked := context.(store := context.store[PREPROCESSED_INDICATOR_KEY := marker]);
      Verdict(marked, PREPROCESSED_INDICATOR_KEY) == Accepted
      && Verdict(marked, POSTPROCESSED_INDICATOR_KEY) == Rejected
  {
  }

  /** When nothing sets the indicator, every command is filtered out and completes with null. */
  lemma UntouchedContextIsRejected<S, F>(
    sender: S, input: string, coordinator: (CommandContext<S>, string) -> CoordinatorRun<F>)
    ensures ExecuteCommand(sender, input, (c: CommandContext<S>, i: string) => Preprocessed(c, i), coordinator)
         == CompletedWithNull
  {
  }

  /** A rejected command never reaches the coordinator: any two coordinators give the same result. */
  lemma {:induction false} RejectionIgnoresCoordinator<S, F>(
    sender: S, input: string,
    preprocessors: (CommandContext<S>, string) -> Preprocessing<S>,
    c1: (CommandContext<S>, string) -> CoordinatorRun<F>,
    c2: (CommandContext<S>, string) -> CoordinatorRun<F>)
    requires preprocessors(NewContext(sender, input), input).Preprocessed?
    requires Verdict(preprocessors(NewContext(sender, input), input).context, PREPROCESSED_INDICATOR_KEY) == Rejected
    ensures ExecuteCommand(sender, input, preprocessors, c1) == ExecuteCommand(sender, input, preprocessors, c2)
    ensures ExecuteCommand(sender, input, preprocessors, c1) == CompletedWithNull
  {
  }

  /** An exception, wherever it is thrown, completes the future exceptionally with that exception. */
  lemma ExceptionsCompleteExceptionally<S, F>(
    sender: S, input: string,
    preprocessors: (CommandContext<S>, string) -> Preprocessing<S>,
    coordinator: (CommandContext<S>, string) -> CoordinatorRun<F>)
    ensures preprocessors(NewContext(sender, input), input).PreprocessingThrew? ==>
      ExecuteCommand(sender, input, preprocessors, coordinator)
        == CompletedExceptionally(preprocessors(NewContext(sender, input), input).exception)
    ensures
      var pre := preprocessors(NewContext(sender, input), input);
      pre.Preprocessed? && Verdict(pre.context, PREPROCESSED_INDICATOR_KEY) == Accepted
      && coordinator(pre.context, pre.remaining).Raised? ==>
        ExecuteCommand(sender, input, preprocessors, coordinator)
          == CompletedExceptionally(coordinator(pre.context, pre.remaining).exception)
  {
  }

  /** A preprocessor that sets the indicator lets the command through to the coordinator. */
  lemma AcceptedReachesCoordinator<S, F>(
    sender: S, input: string, marker: string, future: F)
    requires marker != ""
    ensures ExecuteCommand(sender, input,
                           (c: CommandContext<S>, i: string) =>
                             Preprocessed(c.(store := c.store[PREPROCESSED_INDICATOR_KEY := marker]), i),
                           (c: CommandContext<S>, i: string) => Returned(future))
         == Coordinated(future)
  {
  }

  /**
   * A preprocessor that accepts the command and consumes its first token
   * leaves the coordinator only the rest of the input, while the context
   * keeps its copy of the whole of it.
   */
  lemma ConsumedInputReachesCoordinator<S>(sender: S, marker: string)
    requires marker != ""
    ensures ExecuteCommand(sender, "a b",
                           (c: CommandContext<S>, i: string) =>
                             Preprocessed(c.(store := c.store[PREPROCESSED_INDICATOR_KEY := marker]),
                                          if |i| < 2 then "" else i[2..]),
                           (c: CommandContext<S>, i: string) =>
                             Returned((i, if RAW_INPUT_KEY in c.store then c.store[RAW_INPUT_KEY] else "")))
         == Coordinated(("b", "a b"))
  {
    assert "a b"[2..] == "b";
  }
}
