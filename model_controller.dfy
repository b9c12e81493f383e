/** controllers/model_controller.py: the list of installed models and the selected one. */
module ModelController {
  import opened Wrappers
  import opened OllamaManager

  /** An `OllamaModel`, by name (its speed score is a float nothing reads). */
  datatype OllamaModel = OllamaModel(name: string)

  /** The index of the first model named `name`, as `next(...)` finds it. */
  function FindModel(models: seq<OllamaModel>, name: string): (r: Option<nat>)
    ensures r.Some? ==> r.value < |models| && models[r.value].name == name &&
                        forall j :: 0 <= j < r.value ==> models[j].name != name
    ensures r.None? ==> forall j :: 0 <= j < |models| ==> models[j].name != name
  {
    if models == [] then None
    else if models[0].name == name then Some(0)
    else
      var rest := FindModel(models[1..], name);
      if rest.None? then None else Some(rest.value + 1)
  }

  /** The command `apply_selected_model` runs for a model. */
  function RunCommand(m: OllamaModel): seq<string>
  {
    ["ollama", "run", m.name]
  }

  class ModelController {
    var models: seq<OllamaModel>
    var selectedModel: Option<OllamaModel>

    /** A fresh controller knows no model and has none selected. */
    constructor ()
      ensures models == [] && selectedModel == None
    {
      models := [];
      selectedModel := None;
    }

    /** `load_models()`: one model per listed name, in the same order, replacing the list. */
    method LoadModels(reply: TagsReply) returns (r: seq<OllamaModel>)
      modifies this
      ensures var names := ListOllamaModels(reply);
              |models| == |names| && forall k :: 0 <= k < |names| ==> models[k].name == names[k]
      ensures r == models && selectedModel == old(selectedModel)
    {
      var names := ListOllamaModels(reply);
      models := seq(|names|, k requires 0 <= k < |names| => OllamaModel(names[k]));
      r := models;
    }

    /** `select_fastest_model()`: the first model when there is one; the selection stays otherwise. */
    method SelectFastestModel() returns (r: Option<OllamaModel>)
      modifies this
      ensures models == old(models)
      ensures selectedModel == if old(models) != [] then Some(old(models)[0]) else old(selectedModel)
      ensures r == selectedModel
    {
      if models != [] {
        selectedModel := Some(models[0]);
      }
      r := selectedModel;
    }

    /**
     * `apply_selected_model(name)`, where `runSucceeds` says whether `subprocess.run(...,
     * check=True)` would return normally. It answers false and runs nothing when no model has
     * that name; otherwise it runs `ollama run` for the first such model and answers whether the
     * run succeeded. It changes neither the list nor the selection (it modifies nothing).
     */
    method ApplySelectedModel(name: string, runSucceeds: bool) returns (ok: bool, ran: Option<seq<string>>)
      ensures ran.None? <==> forall j :: 0 <= j < |models| ==> models[j].name != name
      ensures ran.Some? ==> exists k :: 0 <= k < |models| && models[k].name == name &&
                                       (forall j :: 0 <= j < k ==> models[j].name != name) &&
                                       ran.value == RunCommand(models[k])
      ensures ok <==> ran.Some? && runSucceeds
    {
      var found := FindModel(models, name);
      if found.None? {
        return false, None;
      }
      ran := Some(RunCommand(models[found.value]));
      ok := runSucceeds;
    }
  }

  /** The command always names the model asked for, since the first match carries that name. */
  lemma RunsRequestedName(models: seq<OllamaModel>, name: string)
    ensures FindModel(models, name).Some? ==> RunCommand(models[FindModel(models, name).value]) == ["ollama", "run", name]
  {
  }
}
