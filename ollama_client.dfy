/**
 * `ask_ollama_stream` of utils/ollama_client.py: the request it sends, and what its loop
 * over the streamed lines hands to the two callbacks. The HTTP transport is an input:
 * the lines it delivers, and whether it breaks after them.
 */
module OllamaClient {
  import opened Wrappers
  import opened Strings
  import opened Seqs

  const GenerateUrl: string := "http://localhost:11434/api/generate"

  /** The fixed rules text put before every prompt (580 characters, trailing indentation included). */
  const RulesPreamble: string :=
    "\n        [Rules to Follow When Responding]  \n"
    + "        Only list the filenames that are *directly related* to my request from the project files.  \n"
    + "        Please, just list the filenames\U{2014}nothing more. Do **not** exceed 200 characters in total.  \n"
    + "        Do **not** answer my request directly. Just select the files that *seem relevant* to perform the request.  \n"
    + "        Only choose filenames from the ones provided in the \"Project Structure\" list.  \n"
    + "        Do **not** include any explanations beyond the filename list.\n"
    + "        The information below is just for reference.\n\n        "

  const ErrorPrefix: string := "[오류 발생] "

  /** The JSON body posted to the generate endpoint. */
  datatype Payload = Payload(model: string, prompt: string, stream: bool)

  /** The payload for `model` and the caller's `prompt`: the rules, then the prompt untouched, streamed. */
  function MakePayload(model: string, prompt: string): (p: Payload)
    ensures p.model == model && p.stream
    ensures |p.prompt| == |RulesPreamble| + |prompt|
    ensures p.prompt[..|RulesPreamble|] == RulesPreamble && p.prompt[|RulesPreamble|..] == prompt
  {
    Payload(model, RulesPreamble + prompt, true)
  }

  /**
   * One item of `response.iter_lines()`: an empty line, a JSON object whose `response`
   * entry may be absent, or a line that `json.loads` rejects with the given message.
   */
  datatype StreamLine = Blank | Record(response: Option<string>) | Malformed(error: string)

  /** The transport: the lines it delivers; `broken` is the text of the exception it raises after them, if any. */
  datatype Stream = Stream(lines: seq<StreamLine>, broken: Option<string>)

  /**
   * How the caller's callbacks behave: `tokenFailure` names the token call (counting from 0)
   * that raises, with its message; `completeFailure` is the message the first completion
   * call raises, if it does, whatever text it is given; `secondFailure` is the message a
   * second completion call raises, if there is one and it does.
   */
  datatype Callbacks = Callbacks(tokenFailure: Option<(nat, string)>, completeFailure: Option<string>, secondFailure: Option<string>)

  /** One callback invocation, in the order they happen. */
  datatype Call = TokenCall(token: string) | CompleteCall(text: string)

  /** `data.get("response", "")`. */
  function TokenOf(response: Option<string>): string
  {
    if response.None? then "" else response.value
  }

  /** The tokens the loop hands out, and the exception that ends it, if any. */
  datatype LoopOutcome = LoopOutcome(tokens: seq<string>, error: Option<string>)

  /** The loop over `lines`, where `k` token calls have already happened. */
  function Consume(lines: seq<StreamLine>, k: nat, cb: Callbacks): LoopOutcome
  {
    if lines == [] then LoopOutcome([], None)
    else match lines[0]
      case Blank => Consume(lines[1..], k, cb)
      case Malformed(e) => LoopOutcome([], Some(e))
      case Record(response) =>
        var t := TokenOf(response);
        if cb.tokenFailure.Some? && cb.tokenFailure.value.0 == k then LoopOutcome([t], Some(cb.tokenFailure.value.1))
        else
          var rest := Consume(lines[1..], k + 1, cb);
          LoopOutcome([t] + rest.tokens, rest.error)
  }

  function TokenCalls(tokens: seq<string>): (r: seq<Call>)
    ensures |r| == |tokens| && forall i :: 0 <= i < |tokens| ==> r[i] == TokenCall(tokens[i])
  {
    seq(|tokens|, i requires 0 <= i < |tokens| => TokenCall(tokens[i]))
  }

  /** The completion calls after the loop: the error text, or the stripped response (and the error text when that call raises). */
  function Ending(loop: LoopOutcome, broken: Option<string>, cb: Callbacks): (r: seq<Call>)
    ensures 1 <= |r| <= 2 && forall i :: 0 <= i < |r| ==> r[i].CompleteCall?
  {
    var error := if loop.error.Some? then loop.error else broken;
    if error.Some? then [CompleteCall(ErrorPrefix + error.value)]
    else if cb.completeFailure.None? then [CompleteCall(PyStrip(Flatten(loop.tokens)))]
    else [CompleteCall(PyStrip(Flatten(loop.tokens))), CompleteCall(ErrorPrefix + cb.completeFailure.value)]
  }

  /**
   * The exception that escapes `ask_ollama_stream`, if any. Only a completion call made in
   * the `except` clause is unprotected: the error-text call after a failed loop or transport,
   * and the second call after the first, inside the `try`, has raised.
   */
  function Escaped(stream: Stream, cb: Callbacks): Option<string>
  {
    var loop := Consume(stream.lines, 0, cb);
    if loop.error.Some? || stream.broken.Some? then cb.completeFailure
    else if cb.completeFailure.Some? then cb.secondFailure
    else None
  }

  /** Every callback invocation of `ask_ollama_stream`, in order. */
  function StreamCalls(stream: Stream, cb: Callbacks): seq<Call>
  {
    var loop := Consume(stream.lines, 0, cb);
    TokenCalls(loop.tokens) + Ending(loop, stream.broken, cb)
  }

  /** A blank line at `i` hands out nothing. */
  lemma ConsumeBlankAt(lines: seq<StreamLine>, i: nat, k: nat, cb: Callbacks)
    requires i < |lines| && lines[i].Blank?
    ensures Consume(lines[i..], k, cb) == Consume(lines[i + 1..], k, cb)
  {
    assert lines[i..][1..] == lines[i + 1..];
  }

  /** A record at `i` hands out its token, then stops if that call raises and goes on otherwise. */
  lemma ConsumeRecordAt(lines: seq<StreamLine>, i: nat, k: nat, cb: Callbacks)
    requires i < |lines| && lines[i].Record?
    ensures var t := TokenOf(lines[i].response);
            var rest := Consume(lines[i + 1..], k + 1, cb);
            Consume(lines[i..], k, cb) ==
              if cb.tokenFailure.Some? && cb.tokenFailure.value.0 == k then LoopOutcome([t], Some(cb.tokenFailure.value.1))
              else LoopOutcome([t] + rest.tokens, rest.error)
  {
    assert lines[i..][1..] == lines[i + 1..];
  }

  /** The `for line in response.iter_lines()` loop: the tokens handed out, `full_response`, and what ended it. */
  method ConsumeLines(lines: seq<StreamLine>, cb: Callbacks) returns (tokens: seq<string>, full: string, error: Option<string>)
    ensures Consume(lines, 0, cb) == LoopOutcome(tokens, error)
    ensures full == Flatten(tokens)
  {
    full := "";
    tokens := [];
    error := None;
    var i := 0;
    while i < |lines| && error.None?
      invariant 0 <= i <= |lines|
      invariant full == Flatten(tokens)
      invariant error.None? ==> var rest := Consume(lines[i..], |tokens|, cb);
                                Consume(lines, 0, cb) == LoopOutcome(tokens + rest.tokens, rest.error)
      invariant error.Some? ==> Consume(lines, 0, cb) == LoopOutcome(tokens, error)
    {
      var before := tokens;
      match lines[i] {
        case Blank =>
          ConsumeBlankAt(lines, i, |tokens|, cb);
        case Malformed(e) =>
          assert Consume(lines[i..], |tokens|, cb) == LoopOutcome([], Some(e));
          assert tokens + [] == tokens;
          error := Some(e);
        case Record(response) =>
          var t := TokenOf(response);
          ConsumeRecordAt(lines, i, |tokens|, cb);
          full := full + t;
          tokens := tokens + [t];
          if cb.tokenFailure.Some? && cb.tokenFailure.value.0 == |before| {
            error := Some(cb.tokenFailure.value.1);
          } else {
            AppendAssociative(before, [t], Consume(lines[i + 1..], |tokens|, cb).tokens);
          }
      }
      i := i + 1;
    }
    if error.None? {
      assert lines[i..] == [];
      assert tokens + [] == tokens;
    }
  }

  /** `ask_ollama_stream(model, prompt, on_token, on_complete)`: the payload it posts, and its callback calls. */
  method AskOllamaStream(model: string, prompt: string, stream: Stream, cb: Callbacks)
    returns (payload: Payload, calls: seq<Call>, escaped: Option<string>)
    ensures payload == MakePayload(model, prompt)
    ensures calls == StreamCalls(stream, cb)
    ensures escaped == Escaped(stream, cb)
  {
    payload := MakePayload(model, prompt);
    var tokens, full, error := ConsumeLines(stream.lines, cb);
    calls := TokenCalls(tokens);
    ghost var loop := LoopOutcome(tokens, error);
    if error.None? && stream.broken.Some? {
      error := stream.broken;
    }
    escaped := None;
    if error.None? {
      calls := calls + [CompleteCall(PyStrip(full))];
      error := cb.completeFailure;
      if error.Some? {
        calls := calls + [CompleteCall(ErrorPrefix + error.value)];
        escaped := cb.secondFailure;
      }
    } else {
      calls := calls + [CompleteCall(ErrorPrefix + error.value)];
      escaped := cb.completeFailure;
    }
    assert calls == TokenCalls(tokens) + Ending(loop, stream.broken, cb);
  }

  // ---- properties

  function Completions(calls: seq<Call>): (r: seq<string>)
  {
    if calls == [] then []
    else Completions(calls[..|calls| - 1]) + if calls[|calls| - 1].CompleteCall? then [calls[|calls| - 1].text] else []
  }

  lemma {:induction false} CompletionsAppend(a: seq<Call>, b: seq<Call>)
    ensures Completions(a + b) == Completions(a) + Completions(b)
    decreases |b|
  {
    if b == [] {
      assert a + b == a;
    } else {
      var init, last := b[..|b| - 1], b[|b| - 1];
      CompletionsAppend(a, init);
      assert b == init + [last];
      assert a + b == (a + init) + [last];
      CompletionsSnoc(a + init, last);
      CompletionsSnoc(init, last);
      AppendAssociative(Completions(a), Completions(init), if last.CompleteCall? then [last.text] else []);
    }
  }

  lemma CompletionsSnoc(calls: seq<Call>, c: Call)
    ensures Completions(calls + [c]) == Completions(calls) + if c.CompleteCall? then [c.text] else []
  {
    assert (calls + [c])[..|calls|] == calls;
  }

  lemma {:induction false} NoCompletionsInTokens(tokens: seq<string>)
    ensures Completions(TokenCalls(tokens)) == []
    decreases |tokens|
  {
    if tokens != [] {
      var n := |tokens| - 1;
      NoCompletionsInTokens(tokens[..n]);
      assert TokenCalls(tokens)[..n] == TokenCalls(tokens[..n]);
    }
  }

  lemma CompletionsOfCompletes(tail: seq<Call>)
    requires 1 <= |tail| <= 2 && forall i :: 0 <= i < |tail| ==> tail[i].CompleteCall?
    ensures |tail| == 1 ==> Completions(tail) == [tail[0].text]
    ensures |tail| == 2 ==> Completions(tail) == [tail[0].text, tail[1].text]
  {
    assert tail[..1][..0] == [];
    if |tail| == 2 {
      assert tail[..1] == [tail[0]];
    }
  }

  /** A blank line anywhere in the stream changes nothing: it produces no call and takes no token number. */
  lemma {:induction false} BlankLinesIgnored(pre: seq<StreamLine>, post: seq<StreamLine>, k: nat, cb: Callbacks)
    ensures Consume(pre + [Blank] + post, k, cb) == Consume(pre + post, k, cb)
    decreases |pre|
  {
    if pre == [] {
      assert ([] + [Blank] + post)[1..] == post;
      assert [] + post == post;
    } else {
      assert (pre + [Blank] + post)[0] == pre[0] && (pre + post)[0] == pre[0];
      assert (pre + [Blank] + post)[1..] == pre[1..] + [Blank] + post;
      assert (pre + post)[1..] == pre[1..] + post;
      match pre[0]
      case Blank => BlankLinesIgnored(pre[1..], post, k, cb);
      case Malformed(_) =>
      case Record(_) => BlankLinesIgnored(pre[1..], post, k + 1, cb);
    }
  }

  /** With callbacks that do not raise, each record gives exactly one token, its `response` or "", in order. */
  lemma {:induction false} OneTokenPerRecord(lines: seq<StreamLine>, k: nat, cb: Callbacks)
    requires cb.tokenFailure.None?
    requires forall i :: 0 <= i < |lines| ==> lines[i].Record?
    ensures var out := Consume(lines, k, cb);
            && out.error.None?
            && |out.tokens| == |lines|
            && forall i :: 0 <= i < |lines| ==> out.tokens[i] == TokenOf(lines[i].response)
    decreases |lines|
  {
    if lines != [] {
      OneTokenPerRecord(lines[1..], k + 1, cb);
      var rest := Consume(lines[1..], k + 1, cb);
      forall i | 0 < i < |lines| ensures Consume(lines, k, cb).tokens[i] == TokenOf(lines[i].response) {
        assert lines[1..][i - 1] == lines[i];
      }
    }
  }

  /**
   * The completion callback is called exactly once, last, when neither the transport nor a
   * callback raises, and gets the stripped concatenation of the tokens; tokens come first,
   * each delivered once in order, and stay delivered when something fails. When the first
   * completion call raises, the handler calls it a second time with the error text.
   */
  lemma StreamOutcome(stream: Stream, cb: Callbacks)
    ensures var loop := Consume(stream.lines, 0, cb);
            var calls := StreamCalls(stream, cb);
            && |calls| > |loop.tokens|
            && calls[..|loop.tokens|] == TokenCalls(loop.tokens)
            && (loop.error.None? && stream.broken.None? && cb.completeFailure.None? ==>
                  Completions(calls) == [PyStrip(Flatten(loop.tokens))] && calls[|calls| - 1] == CompleteCall(PyStrip(Flatten(loop.tokens))))
            && (loop.error.Some? ==> Completions(calls) == [ErrorPrefix + loop.error.value])
            && (loop.error.None? && stream.broken.Some? ==> Completions(calls) == [ErrorPrefix + stream.broken.value])
            && (loop.error.None? && stream.broken.None? && cb.completeFailure.Some? ==>
                  Completions(calls) == [PyStrip(Flatten(loop.tokens)), ErrorPrefix + cb.completeFailure.value])
  {
    var loop := Consume(stream.lines, 0, cb);
    var tail := Ending(loop, stream.broken, cb);
    CompletionsAppend(TokenCalls(loop.tokens), tail);
    NoCompletionsInTokens(loop.tokens);
    CompletionsOfCompletes(tail);
    assert (TokenCalls(loop.tokens) + tail)[..|loop.tokens|] == TokenCalls(loop.tokens);
  }

  /**
   * What escapes is the failure of the last completion call, and only of that one: nothing
   * escapes while the completion callback does not raise (a failing token callback is
   * caught); after a failed loop or transport, a raising completion call escapes; on a clean
   * stream the first raise is caught and only a raising second call escapes.
   */
  lemma EscapeCases(stream: Stream, cb: Callbacks)
    ensures var loop := Consume(stream.lines, 0, cb);
            var failed := loop.error.Some? || stream.broken.Some?;
            var n := |Completions(StreamCalls(stream, cb))|;
            && (cb.completeFailure.None? ==> Escaped(stream, cb).None?)
            && (failed ==> n == 1 && Escaped(stream, cb) == cb.completeFailure)
            && (!failed && cb.completeFailure.Some? ==> n == 2 && Escaped(stream, cb) == cb.secondFailure)
            && (!failed && cb.completeFailure.Some? && cb.secondFailure.None? ==> Escaped(stream, cb).None?)
  {
    StreamOutcome(stream, cb);
  }
}
