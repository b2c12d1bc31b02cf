/** Token trees as the procedural-macro layer hands them to the compiler, the source
    positions they carry, and the error value that every parsing stage returns. */
module Tokens {

  /** Delimiter of a group token: `( )`, `{ }`, `[ ]` or an invisible one. */
  datatype Delimiter = Parenthesis | Brace | Bracket | NoDelim

  /** One token tree: an identifier (keywords such as `mut` included), a single
      punctuation character, a literal, or a delimited group with its own stream. */
  datatype Token =
    | Ident(name: string)
    | Punct(ch: char)
    | Literal(text: string)
    | Group(delim: Delimiter, stream: seq<Token>)

  /** A source position. It stands in for the host's span: the index of a token in
      its stream, preceded by the indices of the groups that enclose that stream,
      outermost first. */
  type Span = seq<nat>

  /** A token stream together with the span of the group it was taken from
      (`[]` for the macro input itself). */
  datatype Stream = Stream(tokens: seq<Token>, at: Span)

  /** The span of the `i`-th token of `s`. */
  function SpanAt(s: Stream, i: nat): Span
  {
    s.at + [i]
  }

  /** The stream inside the group token at index `i`. */
  function Inner(s: Stream, i: nat): (g: Stream)
    requires i < |s.tokens| && s.tokens[i].Group?
    ensures g.tokens == s.tokens[i].stream && g.at == SpanAt(s, i)
  {
    Stream(s.tokens[i].stream, SpanAt(s, i))
  }

  /** Position of the cursor after one call of `next()`: one token further, or
      unchanged once the stream is exhausted. */
  function Next(s: Stream, i: nat): (j: nat)
    requires i <= |s.tokens|
    ensures j <= |s.tokens|
    ensures i < |s.tokens| ==> j == i + 1
    ensures i == |s.tokens| ==> j == i
  {
    if i < |s.tokens| then i + 1 else i
  }

  /** A syntax error: its message and the span it is reported at. */
  datatype Error = Error(msg: string, span: Span)

  /** A parsed value and the cursor position after it. */
  datatype Parsed<+T> = Parsed(value: T, rest: nat)

  /** Outcome of a parser: a value, or the first error met. */
  datatype Result<+T> = Ok(value: T) | Err(error: Error)
  {
    predicate IsFailure()
    {
      Err?
    }

    function PropagateFailure<U>(): Result<U>
      requires Err?
    {
      Err(error)
    }

    function Extract(): T
      requires Ok?
    {
      value
    }
  }
}
