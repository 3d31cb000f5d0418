/**
 * `MappedArgumentParser`: an argument parser that runs a base parser and then
 * maps its value through a mapper returning a future.
 */
module MappedArgumentParser {

  /** A future as a value: completed with a value, or completed exceptionally. */
  datatype Future<T> = Completed(value: T) | Failed(error: string)

  /** `thenCompose`: continue with k on a value; a failure passes through and k is not run. */
  function ThenCompose<A, B>(f: Future<A>, k: A -> Future<B>): (r: Future<B>)
    ensures f.Failed? ==> r == Failed(f.error)
    ensures f.Completed? ==> r == k(f.value)
  {
    match f
    case Completed(v) => k(v)
    case Failed(e) => Failed(e)
  }

  /**
   * An argument parser over context type X: `parseFuture` (a future and the
   * input left after it), `suggestions`, `isContextFree` and
   * `getRequestedArgumentCount`.
   */
  datatype ArgumentParser<!X, T> = ArgumentParser(
    parseFuture: (X, seq<string>) -> (Future<T>, seq<string>),
    suggestions: (X, string) -> seq<string>,
    contextFree: bool,
    requestedArgumentCount: int)

  /** `MappedArgumentParser(base, mapper)`. */
  datatype Mapped<!X, !I, O> = Mapped(base: ArgumentParser<X, I>, mapper: (X, I) -> Future<O>)

  /** `getBaseParser()`. */
  function GetBaseParser<X, I, O>(m: Mapped<X, I, O>): ArgumentParser<X, I> {
    m.base
  }

  /** `parseFuture`: the base parser, then the mapper on its value. */
  function ParseFuture<X, I, O>(m: Mapped<X, I, O>, context: X, input: seq<string>): (r: (Future<O>, seq<string>))
    ensures r.1 == m.base.parseFuture(context, input).1
    ensures m.base.parseFuture(context, input).0.Failed? ==>
      r.0 == Failed(m.base.parseFuture(context, input).0.error)
    ensures m.base.parseFuture(context, input).0.Completed? ==>
      r.0 == m.mapper(context, m.base.parseFuture(context, input).0.value)
  {
    var (f, rest) := m.base.parseFuture(context, input);
    (ThenCompose(f, (v: I) => m.mapper(context, v)), rest)
  }

  /** `suggestions`: delegated to the base parser. */
  function Suggestions<X, I, O>(m: Mapped<X, I, O>, context: X, input: string): seq<string> {
    m.base.suggestions(context, input)
  }

  /** `isContextFree()`: delegated to the base parser. */
  function IsContextFree<X, I, O>(m: Mapped<X, I, O>): bool {
    m.base.contextFree
  }

  /** `getRequestedArgumentCount()`: delegated to the base parser. */
  function GetRequestedArgumentCount<X, I, O>(m: Mapped<X, I, O>): int {
    m.base.requestedArgumentCount
  }

  /** `map(g)`: the same base with the current mapper composed with g. */
  function Map<X, I, O, O1>(m: Mapped<X, I, O>, g: (X, O) -> Future<O1>): (r: Mapped<X, I, O1>)
    ensures GetBaseParser(r) == GetBaseParser(m)
  {
    Mapped(m.base, (context: X, original: I) => ThenCompose(m.mapper(context, original), (v: O) => g(context, v)))
  }

  /** The parser view of a mapped parser, with the same delegated queries. */
  function AsParser<X, I, O>(m: Mapped<X, I, O>): (p: ArgumentParser<X, O>)
    ensures p.contextFree == IsContextFree(m) && p.requestedArgumentCount == GetRequestedArgumentCount(m)
  {
    ArgumentParser((context: X, input: seq<string>) => ParseFuture(m, context, input),
                   (context: X, input: string) => Suggestions(m, context, input),
                   IsContextFree(m), GetRequestedArgumentCount(m))
  }

  /** When the base fails, the mapper plays no part: every mapper gives the same failure. */
  lemma BaseFailureIgnoresMapper<X, I, O>(base: ArgumentParser<X, I>, f: (X, I) -> Future<O>, g: (X, I) -> Future<O>,
                                          context: X, input: seq<string>)
    requires base.parseFuture(context, input).0.Failed?
    ensures ParseFuture(Mapped(base, f), context, input) == ParseFuture(Mapped(base, g), context, input)
  {
  }

  /** Mapping with g gives what parsing with the current mapper and then applying g gives. */
  lemma MapComposes<X, I, O, O1>(m: Mapped<X, I, O>, g: (X, O) -> Future<O1>, context: X, input: seq<string>)
    ensures var (f, rest) := ParseFuture(m, context, input);
      ParseFuture(Map(m, g), context, input) == (ThenCompose(f, (v: O) => g(context, v)), rest)
  {
    var (b, rest) := m.base.parseFuture(context, input);
    match b
    case Failed(e) =>
    case Completed(v) =>
      assert ParseFuture(Map(m, g), context, input).0
          == ThenCompose(m.mapper(context, v), (w: O) => g(context, w));
  }

  /** Mapping keeps the base parser's suggestions, context freedom and argument count. */
  lemma MapKeepsDelegates<X, I, O, O1>(m: Mapped<X, I, O>, g: (X, O) -> Future<O1>, context: X, input: string)
    ensures Suggestions(Map(m, g), context, input) == Suggestions(m, context, input) == m.base.suggestions(context, input)
    ensures IsContextFree(Map(m, g)) == IsContextFree(m) == m.base.contextFree
    ensures GetRequestedArgumentCount(Map(m, g)) == GetRequestedArgumentCount(m) == m.base.requestedArgumentCount
  {
  }
}
