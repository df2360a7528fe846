/** Tokens, and the encoding they travel in between runtimes (calvin_token.py). */
module Tokens {
  import opened Wrappers

  /** The JSON values an actor may put into a token. */
  datatype Value = Null | Flag(b: bool) | Number(n: int) | Text(s: string) | Items(items: seq<Value>)

  datatype TokenClass = Plain | Exception | EndOfStream

  datatype Token = Token(class_: TokenClass, value: Value)

  /** The coded form: a class name and, normally, the data. */
  datatype Coded = Coded(kind: string, data: Option<Value>)

  function ClassName(c: TokenClass): string {
    match c
    case Plain => "Token"
    case Exception => "ExceptionToken"
    case EndOfStream => "EOSToken"
  }

  function Encode(t: Token): Coded {
    Coded(ClassName(t.class_), Some(t.value))
  }

  function Decode(c: Coded): Token {
    var value := if c.data.Some? then c.data.value else Text("Bad Token");
    if c.kind == "Token" then Token(Plain, value)
    else if c.kind == "EOSToken" then Token(EndOfStream, value)
    else Token(Exception, value)
  }

  function EncodeAll(ts: seq<Token>): (cs: seq<Coded>)
    ensures |cs| == |ts|
    ensures forall i :: 0 <= i < |ts| ==> cs[i] == Encode(ts[i])
  {
    seq(|ts|, i requires 0 <= i < |ts| => Encode(ts[i]))
  }

  function DecodeAll(cs: seq<Coded>): (ts: seq<Token>)
    ensures |ts| == |cs|
    ensures forall i :: 0 <= i < |cs| ==> ts[i] == Decode(cs[i])
  {
    seq(|cs|, i requires 0 <= i < |cs| => Decode(cs[i]))
  }

  lemma DecodeEncode(t: Token)
    ensures Decode(Encode(t)) == t
  {
  }

  /** Coding loses nothing, so a FIFO's slots survive a migration. */
  lemma DecodeEncodeAll(ts: seq<Token>)
    ensures DecodeAll(EncodeAll(ts)) == ts
  {
    forall i | 0 <= i < |ts|
      ensures DecodeAll(EncodeAll(ts))[i] == ts[i]
    {
      DecodeEncode(ts[i]);
    }
  }
}
