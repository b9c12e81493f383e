/**
 * `start_ollama_analysis` of controllers/output_handler.py: the two early rejections, the
 * token accumulator of its `on_token` closure and its `on_done` closure. The model lookup,
 * the prompt builder and the result store belong to a view model that is not part of this
 * model, so their answers are parameters; the streaming callee is represented by the
 * sequence of calls it makes into the two closures.
 */
module OutputHandler {
  import opened Wrappers
  import opened Seqs

  const EmptyRequest: string := "요청 내용을 입력하세요."
  const NoModel: string := "[오류] 현재 모델이 선택되지 않았습니다."

  /** What the handler does that can be seen outside, in order. */
  datatype Effect =
    | StreamStarted(model: string, prompt: string)   // the call to `ask_ollama_stream`
    | Forwarded(token: string)                       // `on_token_callback(token)`
    | Stored(result: string)                         // `viewmodel.set_last_ollama_result(result)`
    | Completed(text: string)                        // `on_complete_callback(text)`

  /** A call the streaming callee makes into the handler's closures; `OnDone`'s arguments are whatever it passes. */
  datatype CalleeCall = OnToken(token: string) | OnDone(args: seq<string>)

  /** The state of one analysis: the closures' shared accumulator and the effects so far. */
  class Analysis {
    var accumulator: seq<string>
    var effects: seq<Effect>

    constructor (model: string, prompt: string)
      ensures accumulator == [] && effects == [StreamStarted(model, prompt)]
    {
      accumulator := [];
      effects := [StreamStarted(model, prompt)];
    }

    /** `on_token(token)`: append to the accumulator, then forward. */
    method OnTokenCalled(token: string)
      modifies this
      ensures accumulator == old(accumulator) + [token]
      ensures effects == old(effects) + [Forwarded(token)]
    {
      accumulator := accumulator + [token];
      effects := effects + [Forwarded(token)];
    }

    /** `on_done(*args, **kwargs)`: join the accumulator, store it, then complete with it. */
    method OnDoneCalled()
      modifies this
      ensures accumulator == old(accumulator)
      ensures effects == old(effects) + [Stored(Flatten(accumulator)), Completed(Flatten(accumulator))]
    {
      var result := Flatten(accumulator);
      effects := effects + [Stored(result)];
      effects := effects + [Completed(result)];
    }
  }

  /** The tokens among `calls`, in order. */
  function TokensOf(calls: seq<CalleeCall>): seq<string>
  {
    if calls == [] then []
    else TokensOf(calls[..|calls| - 1]) + if calls[|calls| - 1].OnToken? then [calls[|calls| - 1].token] else []
  }

  /** The effects of the callee's `calls` into the closures. */
  function Replay(calls: seq<CalleeCall>): seq<Effect>
  {
    if calls == [] then []
    else
      var init := calls[..|calls| - 1];
      var last := calls[|calls| - 1];
      Replay(init) +
        if last.OnToken? then [Forwarded(last.token)]
        else [Stored(Flatten(TokensOf(init))), Completed(Flatten(TokensOf(init)))]
  }

  /** `if not model`: no model is selected, or its name is empty. */
  predicate NoModelSelected(model: Option<string>)
  {
    model.None? || model.value == ""
  }

  /**
   * Everything `start_ollama_analysis` does, with its streaming call made with the four
   * arguments `ask_ollama_stream` accepts; `model` is `get_current_model()`.
   */
  function AnalysisEffects(input: string, model: Option<string>, prompt: string, calls: seq<CalleeCall>): seq<Effect>
  {
    if input == "" then [Completed(EmptyRequest)]
    else if NoModelSelected(model) then [Completed(NoModel)]
    else [StreamStarted(model.value, prompt)] + Replay(calls)
  }

  /** `start_ollama_analysis(viewmodel, user_input, on_token_callback, on_complete_callback)`. */
  method StartOllamaAnalysis(input: string, model: Option<string>, prompt: string, calls: seq<CalleeCall>) returns (effects: seq<Effect>)
    ensures effects == AnalysisEffects(input, model, prompt, calls)
  {
    if input == "" {
      return [Completed(EmptyRequest)];
    }
    if model.None? || model.value == "" {
      return [Completed(NoModel)];
    }
    var analysis := new Analysis(model.value, prompt);
    var i := 0;
    while i < |calls|
      invariant 0 <= i <= |calls|
      invariant analysis.accumulator == TokensOf(calls[..i])
      invariant analysis.effects == [StreamStarted(model.value, prompt)] + Replay(calls[..i])
    {
      assert calls[..i + 1][..i] == calls[..i];
      AppendAssociative([StreamStarted(model.value, prompt)], Replay(calls[..i]), Replay(calls[..i + 1])[|Replay(calls[..i])|..]);
      match calls[i] {
        case OnToken(t) => analysis.OnTokenCalled(t);
        case OnDone(_) => analysis.OnDoneCalled();
      }
      i := i + 1;
    }
    assert calls[..i] == calls;
    effects := analysis.effects;
  }

  // ---- properties

  /** The tokens forwarded to `on_token_callback`, in order. */
  function ForwardedOf(effects: seq<Effect>): seq<string>
  {
    if effects == [] then []
    else ForwardedOf(effects[..|effects| - 1]) + if effects[|effects| - 1].Forwarded? then [effects[|effects| - 1].token] else []
  }

  lemma {:induction false} ForwardedOfAppend(a: seq<Effect>, b: seq<Effect>)
    ensures ForwardedOf(a + b) == ForwardedOf(a) + ForwardedOf(b)
    decreases |b|
  {
    if b == [] {
      assert a + b == a;
    } else {
      var n := |b| - 1;
      ForwardedOfAppend(a, b[..n]);
      assert (a + b)[..|a + b| - 1] == a + b[..n];
    }
  }

  /** Each token the callee delivers is forwarded exactly once, in arrival order, and nothing else is forwarded. */
  lemma {:induction false} TokensForwardedInOrder(calls: seq<CalleeCall>)
    ensures ForwardedOf(Replay(calls)) == TokensOf(calls)
    decreases |calls|
  {
    if calls != [] {
      var init := calls[..|calls| - 1];
      var last := calls[|calls| - 1];
      TokensForwardedInOrder(init);
      var step := if last.OnToken? then [Forwarded(last.token)]
                  else [Stored(Flatten(TokensOf(init))), Completed(Flatten(TokensOf(init)))];
      ForwardedOfAppend(Replay(init), step);
      if !last.OnToken? {
        assert step[..1][..0] == [];
        assert step[..1] == [step[0]];
        assert ForwardedOf(step[..1]) == [];
        assert ForwardedOf(step) == ForwardedOf(step[..1]);
      } else {
        assert step[..0] == [];
      }
    }
  }

  /**
   * Every completion of a started analysis is the concatenation of the tokens delivered before
   * its `on_done`, and is stored just before it is passed on: every `Completed(r)` follows a `Stored(r)`.
   */
  lemma {:induction false} StoredBeforeCompleted(calls: seq<CalleeCall>, i: nat)
    requires i < |Replay(calls)| && Replay(calls)[i].Completed?
    ensures i > 0 && Replay(calls)[i - 1] == Stored(Replay(calls)[i].text)
    decreases |calls|
  {
    var init := calls[..|calls| - 1];
    if i < |Replay(init)| {
      StoredBeforeCompleted(init, i);
    }
  }

  lemma {:induction false} ReplayPrefix(calls: seq<CalleeCall>, m: nat)
    requires m <= |calls|
    ensures |Replay(calls[..m])| <= |Replay(calls)| && Replay(calls)[..|Replay(calls[..m])|] == Replay(calls[..m])
    decreases |calls|
  {
    if m == |calls| {
      assert calls[..m] == calls;
    } else {
      var n := |calls| - 1;
      ReplayPrefix(calls[..n], m);
      assert calls[..n][..m] == calls[..m];
      var p := Replay(calls[..m]);
      assert Replay(calls)[..|Replay(calls[..n])|] == Replay(calls[..n]);
      assert Replay(calls)[..|p|] == Replay(calls[..n])[..|p|];
    }
  }

  /**
   * The `on_done` at index `k` stores and then completes with the concatenation of exactly the
   * tokens delivered before it, and both effects appear, adjacent, among the analysis's effects.
   */
  lemma DoneResult(calls: seq<CalleeCall>, k: nat)
    requires k < |calls| && calls[k].OnDone?
    ensures var r := Flatten(TokensOf(calls[..k]));
            exists i :: 0 <= i && i + 1 < |Replay(calls)| && Replay(calls)[i] == Stored(r) && Replay(calls)[i + 1] == Completed(r)
  {
    var r := Flatten(TokensOf(calls[..k]));
    assert calls[..k + 1][..k] == calls[..k];
    var pre := Replay(calls[..k]);
    assert Replay(calls[..k + 1]) == pre + [Stored(r), Completed(r)];
    ReplayPrefix(calls, k + 1);
    var i := |pre|;
    assert Replay(calls)[i] == Replay(calls[..k + 1])[i];
    assert Replay(calls)[i + 1] == Replay(calls[..k + 1])[i + 1];
  }

  /** Whatever the callee passes to `on_done` is ignored. */
  lemma {:induction false} DoneArgumentsIgnored(calls: seq<CalleeCall>, k: nat, args: seq<string>)
    requires k < |calls| && calls[k].OnDone?
    ensures Replay(calls[k := OnDone(args)]) == Replay(calls)
    ensures TokensOf(calls[k := OnDone(args)]) == TokensOf(calls)
    decreases |calls|
  {
    var n := |calls| - 1;
    var other := calls[k := OnDone(args)];
    DoneTokensIgnored(calls, k, args);
    if k < n {
      assert other[..n] == calls[..n][k := OnDone(args)];
      assert other[n] == calls[n];
      DoneArgumentsIgnored(calls[..n], k, args);
    } else {
      assert other[..n] == calls[..n];
      assert !other[n].OnToken? && !calls[n].OnToken?;
    }
  }

  /** Nor does it change which tokens the callee delivers. */
  lemma {:induction false} DoneTokensIgnored(calls: seq<CalleeCall>, k: nat, args: seq<string>)
    requires k < |calls| && calls[k].OnDone?
    ensures TokensOf(calls[k := OnDone(args)]) == TokensOf(calls)
    decreases |calls|
  {
    var n := |calls| - 1;
    var other := calls[k := OnDone(args)];
    if k < n {
      assert other[..n] == calls[..n][k := OnDone(args)];
      assert other[n] == calls[n];
      DoneTokensIgnored(calls[..n], k, args);
    } else {
      assert other[..n] == calls[..n];
    }
  }

  /**
   * An empty request completes with the reminder and nothing else: no model lookup matters, no
   * prompt is built and no stream starts. With a request but no model, it completes with the
   * model error and starts no stream.
   */
  lemma Rejections(input: string, model: Option<string>, prompt: string, calls: seq<CalleeCall>)
    ensures input == "" ==> AnalysisEffects(input, model, prompt, calls) == [Completed(EmptyRequest)]
    ensures input != "" && (model.None? || model == Some("")) ==> AnalysisEffects(input, model, prompt, calls) == [Completed(NoModel)]
    ensures input != "" && model.Some? && model.value != "" ==>
              AnalysisEffects(input, model, prompt, calls)[0] == StreamStarted(model.value, prompt)
  {
  }

  // ---- the streaming call as written

  /** What a call of the handler leads to: its effects, and whether an exception escaped it. */
  datatype Outcome = Outcome(effects: seq<Effect>, raised: bool)

  /**
   * `start_ollama_analysis` as lines 37-43 write it: the call passes `should_stop_callback`,
   * a keyword `ask_ollama_stream` does not accept, so it raises `TypeError` once the prompt
   * is built and before anything is sent; no closure is ever called.
   */
  function AnalysisAsWritten(input: string, model: Option<string>, prompt: string): Outcome
  {
    if input == "" then Outcome([Completed(EmptyRequest)], false)
    else if NoModelSelected(model) then Outcome([Completed(NoModel)], false)
    else Outcome([], true)
  }

  /**
   * The two rejections behave as intended; every request that passes them raises instead of
   * streaming, whatever the callee would have delivered: no stream starts, no token is
   * forwarded, nothing is stored and nothing completes.
   */
  lemma AsWrittenNeverStreams(input: string, model: Option<string>, prompt: string, calls: seq<CalleeCall>)
    ensures input == "" || NoModelSelected(model) ==>
              AnalysisAsWritten(input, model, prompt) == Outcome(AnalysisEffects(input, model, prompt, calls), false)
    ensures input != "" && !NoModelSelected(model) ==>
              AnalysisAsWritten(input, model, prompt).raised && AnalysisAsWritten(input, model, prompt).effects == [] &&
              AnalysisEffects(input, model, prompt, calls) != [] &&
              AnalysisEffects(input, model, prompt, calls)[0] == StreamStarted(model.value, prompt)
  {
  }
}
