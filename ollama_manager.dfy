/**
 * The parsing side of utils/ollama_manager.py: the names in an `/api/tags` reply, the
 * readiness check over the same reply, and the `ollama list` table.
 */
module OllamaManager {
  import opened Wrappers
  import opened Strings

  /**
   * What `requests.get(.../api/tags)` followed by `.json()` gives back: a failure at any
   * step (connection, HTTP status, decoding), or the decoded object, whose `models`
   * entry may be missing and each of whose models may lack a `name`.
   */
  datatype TagsReply =
    | RequestFailed
    | Decoded(models: Option<seq<Option<string>>>)

  /** The `models` list of a reply, or `[]` when the key is missing. */
  function TagEntries(models: Option<seq<Option<string>>>): seq<Option<string>>
  {
    if models.None? then [] else models.value
  }

  /** The names of `entries`, or `None` when one of them has none (`model["name"]` raises). */
  function EntryNames(entries: seq<Option<string>>): (r: Option<seq<string>>)
    ensures r.None? <==> exists k :: 0 <= k < |entries| && entries[k].None?
    ensures r.Some? ==> |r.value| == |entries| && forall k :: 0 <= k < |entries| ==> entries[k] == Some(r.value[k])
  {
    if entries == [] then Some([])
    else
      var init := EntryNames(entries[..|entries| - 1]);
      var last := entries[|entries| - 1];
      if init.None? || last.None? then None else Some(init.value + [last.value])
  }

  /** `list_ollama_models()`: the names in server order, `[]` on any failure. */
  function ListOllamaModels(reply: TagsReply): seq<string>
  {
    match reply
    case RequestFailed => []
    case Decoded(models) =>
      var names := EntryNames(TagEntries(models));
      if names.None? then [] else names.value
  }

  /**
   * `any(m["name"] == model for m in tags)`: scanning in order, a match ends the scan; an
   * entry without a name reached before any match raises, and the function answers false.
   */
  function AnyNamed(entries: seq<Option<string>>, model: string): bool
  {
    if entries == [] then false
    else if entries[0].None? then false
    else entries[0].value == model || AnyNamed(entries[1..], model)
  }

  /** `is_model_ready(model)`. */
  function IsModelReady(reply: TagsReply, model: string): bool
  {
    reply.Decoded? && AnyNamed(TagEntries(reply.models), model)
  }

  lemma {:induction false} AnyNamedIff(entries: seq<Option<string>>, model: string)
    ensures AnyNamed(entries, model) <==>
              exists k :: 0 <= k < |entries| && entries[k] == Some(model) &&
                forall j :: 0 <= j < k ==> entries[j].Some?
  {
    if entries != [] && entries[0].Some? {
      AnyNamedIff(entries[1..], model);
      if AnyNamed(entries[1..], model) && entries[0].value != model {
        var k :| 0 <= k < |entries[1..]| && entries[1..][k] == Some(model) &&
          forall j :: 0 <= j < k ==> entries[1..][j].Some?;
        assert forall j :: 0 <= j < k + 1 ==> entries[j].Some? by {
          forall j | 0 <= j < k + 1 ensures entries[j].Some? {
            if j > 0 { assert entries[j] == entries[1..][j - 1]; }
          }
        }
        assert entries[k + 1] == Some(model);
      }
      if exists k :: 0 <= k < |entries| && entries[k] == Some(model) && forall j :: 0 <= j < k ==> entries[j].Some? {
        var k :| 0 <= k < |entries| && entries[k] == Some(model) && forall j :: 0 <= j < k ==> entries[j].Some?;
        if k > 0 {
          assert entries[1..][k - 1] == Some(model);
          assert forall j :: 0 <= j < k - 1 ==> entries[1..][j].Some? by {
            forall j | 0 <= j < k - 1 ensures entries[1..][j].Some? {
              assert entries[1..][j] == entries[j + 1];
            }
          }
        }
      }
    }
  }

  /**
   * On a reply whose models all have names, readiness is exactly membership of `model` among
   * the listed names; a failed request, or a reply without `models`, is never ready.
   */
  lemma ReadyIffListed(reply: TagsReply, model: string)
    ensures reply.RequestFailed? || (reply.Decoded? && reply.models.None?) ==> !IsModelReady(reply, model)
    ensures reply.Decoded? && EntryNames(TagEntries(reply.models)).Some? ==>
              (IsModelReady(reply, model) <==> model in ListOllamaModels(reply))
  {
    if reply.Decoded? && EntryNames(TagEntries(reply.models)).Some? {
      var entries := TagEntries(reply.models);
      var names := ListOllamaModels(reply);
      AnyNamedIff(entries, model);
      if model in names {
        var k :| 0 <= k < |names| && names[k] == model;
        assert entries[k] == Some(model);
      }
      if IsModelReady(reply, model) {
        var k :| 0 <= k < |entries| && entries[k] == Some(model) && forall j :: 0 <= j < k ==> entries[j].Some?;
        assert names[k] == model;
      }
    }
  }

  /** A missing `name` reached before the match makes the check false although the model is listed later. */
  lemma NamelessEntryHidesLaterMatch(model: string)
    ensures !IsModelReady(Decoded(Some([None, Some(model)])), model)
    ensures IsModelReady(Decoded(Some([Some(model), None])), model)
  {
  }

  // ---------------------------------------------------------------- get_installed_models

  /** What `subprocess.run(["ollama", "list"], ...)` gives: it raises, or it exits with a code and stdout. */
  datatype ListRun = RunRaised | Exited(code: int, stdout: string)

  /** `[line.split()[0] for line in lines]`, or `None` when a line is blank and `[0]` raises. */
  function FirstFields(lines: seq<string>): (r: Option<seq<string>>)
    ensures r.None? <==> exists k :: 0 <= k < |lines| && FirstField(lines[k]).None?
    ensures r.Some? ==> |r.value| == |lines| && forall k :: 0 <= k < |lines| ==> FirstField(lines[k]) == Some(r.value[k])
  {
    if lines == [] then Some([])
    else
      var init := FirstFields(lines[..|lines| - 1]);
      var last := FirstField(lines[|lines| - 1]);
      if init.None? || last.None? then None else Some(init.value + [last.value])
  }

  /** The table rows: `stdout.strip().split("\n")` without its first (header) line. */
  function TableRows(stdout: string): seq<string>
  {
    Split(PyStrip(stdout), '\n')[1..]
  }

  /** `get_installed_models()`. */
  function InstalledModels(run: ListRun): seq<string>
  {
    if run.RunRaised? || run.code != 0 then []
    else
      var names := FirstFields(TableRows(run.stdout));
      if names.None? then [] else names.value
  }

  /** The loop of `get_installed_models` over the table rows. */
  method GetInstalledModels(run: ListRun) returns (models: seq<string>)
    ensures models == InstalledModels(run)
  {
    if run.RunRaised? || run.code != 0 {
      return [];
    }
    var lines := TableRows(run.stdout);
    models := [];
    var i := 0;
    while i < |lines|
      invariant 0 <= i <= |lines|
      invariant FirstFields(lines[..i]) == Some(models)
    {
      var field := FirstField(lines[i]);
      if field.None? {
        FirstFieldsBlank(lines, i);
        return [];
      }
      FirstFieldsStep(lines, i, models);
      models := models + [field.value];
      i := i + 1;
    }
    assert lines[..i] == lines;
  }

  lemma FirstFieldsStep(lines: seq<string>, i: nat, fields: seq<string>)
    requires i < |lines| && FirstFields(lines[..i]) == Some(fields) && FirstField(lines[i]).Some?
    ensures FirstFields(lines[..i + 1]) == Some(fields + [FirstField(lines[i]).value])
  {
    assert lines[..i + 1][..i] == lines[..i];
  }

  lemma FirstFieldsBlank(lines: seq<string>, i: nat)
    requires i < |lines| && FirstField(lines[i]).None?
    ensures FirstFields(lines).None?
  {
  }

  /**
   * A listing that exits normally gives one name per row after the header, in row order,
   * each the row's first whitespace-separated field; a failed run, empty output or a
   * blank row gives `[]`.
   */
  lemma InstalledModelsCases(run: ListRun)
    ensures run.RunRaised? || run.code != 0 ==> InstalledModels(run) == []
    ensures run.Exited? && PyStrip(run.stdout) == "" ==> InstalledModels(run) == []
    ensures run.Exited? && run.code == 0 && (exists k :: 0 <= k < |TableRows(run.stdout)| && FirstField(TableRows(run.stdout)[k]).None?) ==>
              InstalledModels(run) == []
    ensures run.Exited? && run.code == 0 && (forall k :: 0 <= k < |TableRows(run.stdout)| ==> FirstField(TableRows(run.stdout)[k]).Some?) ==>
              var rows := TableRows(run.stdout);
              var names := InstalledModels(run);
              |names| == |rows| && forall k :: 0 <= k < |rows| ==> Some(names[k]) == FirstField(rows[k])
  {
    if run.Exited? && PyStrip(run.stdout) == "" {
      assert Split("", '\n') == [""];
    }
  }
}
